/** Whole runs of the co-routine scheduler.  A schedule is taken apart where interrupts may come in: one
    step is one iteration of a loop of prvCheckPendingReadyList or prvCheckDelayedList, with creations and
    delays between schedules and interrupts, which unblock co-routines, between any two steps. */
module CoRoutineRuns {
  import opened ListOrder
  import opened Sequences
  import opened CoRoutineState

  /** Where the scheduler is: outside, in prvCheckPendingReadyList, or in prvCheckDelayedList with some
      ticks left, before a tick or among the co-routines to be woken at one. */
  datatype Phase = Outside | Readying | Ticking(left: nat) | Expiring(left: nat)

  datatype Config = Config(s: State, phase: Phase)

  datatype Call =
    | CreateCall(c: CoRoutine, priority: nat)
    | DelayCall(ticks: nat, event: bool)  // made by the running co-routine
    | UnblockCall(c: CoRoutine)           // made by an interrupt
    | EnterSchedule
    | ReadyOne                            // one pending co-routine is made ready
    | ReadTicks(passed: nat)              // none is pending; the kernel tick count is read
    | AdvanceOne                          // one tick
    | ExpireOne                           // the head of the delayed list is due and made ready
    | ExpireDone                          // it is not due, or there is none
    | PickOne

  ghost predicate HeadIsDue(s: State) {
    s.delayed != [] && s.tick >= s.delayed[0].wake
  }

  ghost predicate Legal(k: Config, call: Call) {
    match call
    case CreateCall(c, _) => k.phase.Outside? && c !in k.s.priority && c >= 0
    case DelayCall(ticks, _) => k.phase.Outside? && 0 < ticks < WRAP && Ready(k.s, k.s.current)
    case UnblockCall(c) => c in k.s.onEvent
    case EnterSchedule => k.phase.Outside?
    case ReadyOne => k.phase.Readying? && k.s.pending != []
    case ReadTicks(_) => k.phase.Readying? && k.s.pending == []
    case AdvanceOne => k.phase.Ticking? && k.phase.left > 0
    case ExpireOne => k.phase.Expiring? && HeadIsDue(k.s)
    case ExpireDone => k.phase.Expiring? && !HeadIsDue(k.s)
    case PickOne => k.phase == Ticking(0)
  }

  ghost function Step(k: Config, call: Call): Config
    requires Legal(k, call)
  {
    match call
    case CreateCall(c, priority) => k.(s := Create(k.s, c, priority))
    case DelayCall(ticks, event) => k.(s := AddToDelayed(k.s, ticks, event))
    case UnblockCall(c) => k.(s := Unblock(k.s, c))
    case EnterSchedule => k.(phase := Readying)
    case ReadyOne => k.(s := ReadyPending(k.s))
    case ReadTicks(passed) => k.(phase := Ticking(passed))
    case AdvanceOne => Config(Advance(k.s), Expiring(k.phase.left - 1))
    case ExpireOne => k.(s := ExpireHead(k.s))
    case ExpireDone => k.(phase := Ticking(k.phase.left))
    case PickOne => Config(Pick(k.s), Outside)
  }

  /** Who may act when: other code and the running co-routine between schedules, the latter delaying by less than a
      turn of the tick count; interrupts at any time, for any co-routine that waits for an event; the scheduler in the
      order of its loops. */
  lemma WhoMayAct(k: Config, c: CoRoutine, priority: nat, ticks: nat, event: bool)
    ensures Legal(k, CreateCall(c, priority)) <==> k.phase == Outside && c >= 0 && c !in k.s.priority
    ensures Legal(k, DelayCall(ticks, event)) <==>
              k.phase == Outside && 1 <= ticks < 0x1_0000_0000 && Ready(k.s, k.s.current)
    ensures Legal(k, UnblockCall(c)) <==> c in k.s.onEvent
    ensures Legal(k, EnterSchedule) <==> k.phase == Outside
    ensures Legal(k, ReadyOne) <==> k.phase == Readying && k.s.pending != []
    ensures Legal(k, ReadTicks(ticks)) <==> k.phase == Readying && k.s.pending == []
    ensures Legal(k, AdvanceOne) <==> k.phase.Ticking? && k.phase.left > 0
    ensures var due := k.s.delayed != [] && k.s.delayed[0].wake <= k.s.tick;
            && (Legal(k, ExpireOne) <==> k.phase.Expiring? && due)
            && (Legal(k, ExpireDone) <==> k.phase.Expiring? && !due)
    ensures Legal(k, PickOne) <==> k.phase == Ticking(0)
  {
  }

  /** True time and true wake times after a step. */
  ghost function Clock(T: nat, call: Call): nat {
    if call.AdvanceOne? then T + 1 else T
  }

  ghost function Wishes(k: Config, T: nat, due: map<CoRoutine, nat>, call: Call): map<CoRoutine, nat> {
    if call.DelayCall? then due[k.s.current := T + call.ticks] else due
  }

  ghost predicate Reaches(k: Config, T: nat, due: map<CoRoutine, nat>, calls: seq<Call>,
                          k': Config, T': nat, due': map<CoRoutine, nat>)
    decreases |calls|
  {
    if calls == [] then k == k' && T == T' && due == due'
    else Legal(k, calls[0])
         && Reaches(Step(k, calls[0]), Clock(T, calls[0]), Wishes(k, T, due, calls[0]), calls[1..], k', T', due')
  }

  /** In the middle of a tick those due at it may still be delayed. */
  ghost predicate Kept(k: Config, T: nat, due: map<CoRoutine, nat>) {
    if k.phase.Expiring? then Inv(k.s) && AtTick(k.s, T, due) else Timely(k.s, T, due)
  }

  lemma KeptIsInv(k: Config, T: nat, due: map<CoRoutine, nat>)
    requires Kept(k, T, due)
    ensures Inv(k.s)
  {
  }

  lemma StepKeeps(k: Config, T: nat, due: map<CoRoutine, nat>, call: Call)
    requires Kept(k, T, due) && Legal(k, call)
    ensures Kept(Step(k, call), Clock(T, call), Wishes(k, T, due, call))
  {
    if call.UnblockCall? {
      InterruptKeeps(k, T, due, call);
    } else if call.CreateCall? || call.DelayCall? {
      CallKeeps(k, T, due, call);
    } else {
      ScheduleStepKeeps(k, T, due, call);
    }
  }

  lemma InterruptKeeps(k: Config, T: nat, due: map<CoRoutine, nat>, call: Call)
    requires Kept(k, T, due) && Legal(k, call) && call.UnblockCall?
    ensures Kept(Step(k, call), T, due)
  {
    KeptIsInv(k, T, due);
    hide Timely, Inv, AtTick, Unblock;
    UnblockKeeps(k.s, call.c);
  }

  lemma CallKeeps(k: Config, T: nat, due: map<CoRoutine, nat>, call: Call)
    requires Kept(k, T, due) && Legal(k, call) && (call.CreateCall? || call.DelayCall?)
    ensures Kept(Step(k, call), T, Wishes(k, T, due, call))
  {
    hide Timely, Inv, AtTick, Create, AddToDelayed;
    if call.CreateCall? {
      CreateKeeps(k.s, T, due, call.c, call.priority);
    } else {
      DelayOnTime(k.s, T, due, call.ticks, call.event);
    }
  }

  lemma ScheduleStepKeeps(k: Config, T: nat, due: map<CoRoutine, nat>, call: Call)
    requires Kept(k, T, due) && Legal(k, call) && !call.UnblockCall? && !call.CreateCall? && !call.DelayCall?
    ensures Kept(Step(k, call), Clock(T, call), due)
  {
    hide Timely, Inv, AtTick, ReadyPending, Advance, ExpireHead, Pick;
    match call
    case EnterSchedule =>
    case ReadyOne => PendingKeeps(k.s, T, due);
    case ReadTicks(_) =>
    case AdvanceOne => AdvanceKeeps(k.s, T, due);
    case ExpireOne => ExpireHeadKeeps(k.s, T, due);
    case ExpireDone => NoneLeft(k.s, T, due);
    case PickOne => PickKeeps(k.s, T, due);
  }

  lemma AdvanceKeeps(s: State, T: nat, due: map<CoRoutine, nat>)
    requires Timely(s, T, due)
    ensures Inv(Advance(s)) && AtTick(Advance(s), T + 1, due)
  {
    AdvanceOnTime(s, T, due);
  }

  lemma NoneLeft(s: State, T: nat, due: map<CoRoutine, nat>)
    requires Inv(s) && AtTick(s, T, due) && !HeadIsDue(s)
    ensures Timely(s, T, due)
  {
    NoneDue(s, T, due);
  }

  /** Time w is over: no co-routine due at it is still being woken. */
  ghost predicate Past(k: Config, T: nat, w: nat) {
    T > w || (T == w && !k.phase.Expiring?)
  }

  lemma NobodyOverdue(k: Config, T: nat, due: map<CoRoutine, nat>, c: CoRoutine)
    requires Kept(k, T, due)
    ensures c in k.s.priority ==> (Ready(k.s, c) <==> !Delayed(k.s, c))
    ensures Delayed(k.s, c) ==> c in due && !Past(k, T, due[c]) && due[c] >= T
  {
    ReadyOrDelayed(k.s, c);
    if k.phase.Expiring? {
      AllDue(k.s, T, due);
    } else {
      TickFor(k.s, T, due, c);
    }
  }

  /** In every run, however often the tick count wraps and wherever interrupts come in: each co-routine is
      in exactly one list, the two delayed lists hold true wake times in order, and no co-routine is still
      delayed when its wake time is over. */
  lemma {:induction false} EveryRunIsTimely(k: Config, T: nat, due: map<CoRoutine, nat>, calls: seq<Call>,
                                            k': Config, T': nat, due': map<CoRoutine, nat>)
    requires Kept(k, T, due) && Reaches(k, T, due, calls, k', T', due')
    ensures Kept(k', T', due')
    ensures forall c :: c in k'.s.priority ==> (Ready(k'.s, c) <==> !Delayed(k'.s, c))
    ensures forall c :: Delayed(k'.s, c) ==> c in due' && !Past(k', T', due'[c])
    decreases |calls|
  {
    hide Kept, Legal, Step, Past;
    if calls == [] {
      forall c ensures (c in k.s.priority ==> (Ready(k.s, c) <==> !Delayed(k.s, c)))
                       && (Delayed(k.s, c) ==> c in due && !Past(k, T, due[c]))
      {
        NobodyOverdue(k, T, due, c);
      }
    } else {
      StepKeeps(k, T, due, calls[0]);
      EveryRunIsTimely(Step(k, calls[0]), Clock(T, calls[0]), Wishes(k, T, due, calls[0]), calls[1..], k', T', due');
    }
  }

  // ---------------------------------------------------------------- never early

  /** Nothing but time can wake c: it is delayed, and neither waits for an event nor got one. */
  ghost predicate Asleep(s: State, c: CoRoutine) {
    Delayed(s, c) && c !in s.onEvent && c !in s.pending
  }

  lemma ExpireHeadFrame(s: State)
    requires s.delayed != []
    ensures var s', c := ExpireHead(s), s.delayed[0].who;
            s'.delayed == s.delayed[1..] && s'.onEvent == s.onEvent - {c} && s'.pending == Without(s.pending, c)
  {
  }

  lemma ExpireSleeps(s: State, T: nat, due: map<CoRoutine, nat>, c: CoRoutine)
    requires Inv(s) && AtTick(s, T, due) && HeadIsDue(s) && Asleep(s, c) && s.delayed[0].who != c
    ensures Asleep(ExpireHead(s), c)
  {
    ExpireHeadKeeps(s, T, due);
    ExpireHeadFrame(s);
    WithoutMembers(s.pending, s.delayed[0].who);
  }

  lemma PendingSleeps(s: State, T: nat, due: map<CoRoutine, nat>, c: CoRoutine)
    requires Timely(s, T, due) && s.pending != [] && Asleep(s, c)
    ensures Asleep(ReadyPending(s), c)
  {
    PendingKeeps(s, T, due);
    ReadyPendingFrame(s);
    DropDelayKeeps(s.delayed, s.pending[0]);
    DropDelayKeeps(s.overflow, s.pending[0]);
  }

  lemma ReadyPendingFrame(s: State)
    requires s.pending != []
    ensures var s', p := ReadyPending(s), s.pending[0];
            && s'.pending == s.pending[1..] && s'.onEvent == s.onEvent
            && s'.delayed == DropDelay(s.delayed, p) && s'.overflow == DropDelay(s.overflow, p)
  {
  }

  lemma PickFrame(s: State)
    ensures var s' := Pick(s);
            s'.delayed == s.delayed && s'.overflow == s.overflow && s'.pending == s.pending && s'.onEvent == s.onEvent
  {
  }

  lemma AdvanceFrame(s: State, c: CoRoutine)
    ensures Delayed(Advance(s), c) == Delayed(s, c)
    ensures Advance(s).onEvent == s.onEvent && Advance(s).pending == s.pending
  {
  }

  lemma CreateFrame(s: State, c: CoRoutine, priority: nat)
    ensures var s' := Create(s, c, priority);
            s'.delayed == s.delayed && s'.overflow == s.overflow && s'.pending == s.pending && s'.onEvent == s.onEvent
  {
  }

  lemma DelaySleeps(s: State, T: nat, due: map<CoRoutine, nat>, ticks: nat, event: bool, c: CoRoutine)
    requires Timely(s, T, due) && Ready(s, s.current) && 0 < ticks < WRAP && Delayed(s, c)
    ensures Delayed(AddToDelayed(s, ticks, event), c) && c != s.current
    ensures Asleep(s, c) ==> Asleep(AddToDelayed(s, ticks, event), c)
  {
    ReadyOrDelayed(s, c);
    DelayOnTime(s, T, due, ticks, event);
    DelayFields(s, ticks, event);
  }

  /** The step readies c: at its wake time, from the head of the delayed list, or earlier because an
      interrupt gave it an event. */
  ghost predicate Readies(k: Config, T: nat, call: Call, c: CoRoutine, w: nat)
    requires Legal(k, call)
  {
    && Ready(Step(k, call).s, c)
    && ((call.ExpireOne? && k.s.delayed[0].who == c && T == w)
        || (call.ReadyOne? && k.s.pending[0] == c && T < w))
  }

  /** Any step that does not wake it leaves c asleep and its wake time as it is. */
  lemma StepSleeps(k: Config, T: nat, due: map<CoRoutine, nat>, call: Call, c: CoRoutine)
    requires Kept(k, T, due) && Legal(k, call) && Asleep(k.s, c) && c in due
    requires T < due[c] || !Readies(k, T, call, c, due[c])
    ensures Asleep(Step(k, call).s, c)
    ensures c in Wishes(k, T, due, call) && Wishes(k, T, due, call)[c] == due[c]
  {
    var s := k.s;
    match call
    case CreateCall(new_, priority) => CreateFrame(s, new_, priority);
    case DelayCall(ticks, event) => DelaySleeps(s, T, due, ticks, event, c);
    case UnblockCall(_) =>
    case EnterSchedule =>
    case ReadyOne => PendingSleeps(s, T, due, c);
    case ReadTicks(_) =>
    case AdvanceOne => AdvanceFrame(s, c);
    case ExpireOne =>
      ExpireHeadKeeps(s, T, due);
      ExpireSleeps(s, T, due, c);
    case ExpireDone =>
    case PickOne => PickFrame(s);
  }

  /** Never early: over any run that has not reached its wake time, a delayed co-routine that got no
      event is still delayed, with the same wake time. */
  lemma {:induction false} SleepsUntilDue(k: Config, T: nat, due: map<CoRoutine, nat>, calls: seq<Call>,
                                          k': Config, T': nat, due': map<CoRoutine, nat>, c: CoRoutine)
    requires Kept(k, T, due) && Reaches(k, T, due, calls, k', T', due')
    requires Asleep(k.s, c) && c in due && T' < due[c]
    ensures Asleep(k'.s, c) && c in due' && due'[c] == due[c]
    decreases |calls|
  {
    hide Kept, Legal, Step, Asleep;
    if calls != [] {
      var k1, T1, due1 := Step(k, calls[0]), Clock(T, calls[0]), Wishes(k, T, due, calls[0]);
      TimeGoesOn(k1, T1, due1, calls[1..], k', T', due');
      StepKeeps(k, T, due, calls[0]);
      StepSleeps(k, T, due, calls[0], c);
      SleepsUntilDue(k1, T1, due1, calls[1..], k', T', due', c);
    }
  }

  lemma {:induction false} TimeGoesOn(k: Config, T: nat, due: map<CoRoutine, nat>, calls: seq<Call>,
                                      k': Config, T': nat, due': map<CoRoutine, nat>)
    requires Reaches(k, T, due, calls, k', T', due')
    ensures T <= T'
    decreases |calls|
  {
    hide Legal, Step;
    if calls != [] {
      TimeGoesOn(Step(k, calls[0]), Clock(T, calls[0]), Wishes(k, T, due, calls[0]), calls[1..], k', T', due');
    }
  }

  // ---------------------------------------------------------------- never late or missed

  /** A step wakes a delayed co-routine, or leaves it delayed with its wake time. */
  lemma StepWakes(k: Config, T: nat, due: map<CoRoutine, nat>, call: Call, c: CoRoutine)
    requires Kept(k, T, due) && Legal(k, call) && Delayed(k.s, c) && c in due
    ensures Readies(k, T, call, c, due[c])
            || (Delayed(Step(k, call).s, c) && c in Wishes(k, T, due, call) && Wishes(k, T, due, call)[c] == due[c])
  {
    var s := k.s;
    match call
    case CreateCall(new_, priority) => CreateFrame(s, new_, priority);
    case DelayCall(ticks, event) => DelaySleeps(s, T, due, ticks, event, c);
    case UnblockCall(_) =>
    case EnterSchedule =>
    case ReadyOne => PendingWakes(s, T, due, c);
    case ReadTicks(_) =>
    case AdvanceOne => AdvanceFrame(s, c);
    case ExpireOne => ExpireHeadKeeps(s, T, due);
    case ExpireDone =>
    case PickOne => PickFrame(s);
  }

  lemma PendingWakes(s: State, T: nat, due: map<CoRoutine, nat>, c: CoRoutine)
    requires Timely(s, T, due) && s.pending != [] && Delayed(s, c) && c in due
    ensures if s.pending[0] == c then Ready(ReadyPending(s), c) && T < due[c] else Delayed(ReadyPending(s), c)
  {
    PendingKeeps(s, T, due);
    ReadyPendingFrame(s);
    DropDelayKeeps(s.delayed, s.pending[0]);
    DropDelayKeeps(s.overflow, s.pending[0]);
    ReadyOrDelayed(s, c);
    TickFor(s, T, due, c);
  }

  /** The j-th step of the run wakes c, which is delayed with its wake time up to then. */
  ghost predicate WokenBy(k: Config, T: nat, due: map<CoRoutine, nat>, calls: seq<Call>, j: nat,
                          k1: Config, T1: nat, due1: map<CoRoutine, nat>, c: CoRoutine, w: nat)
  {
    && j < |calls| && Reaches(k, T, due, calls[..j], k1, T1, due1) && Kept(k1, T1, due1)
    && Delayed(k1.s, c) && c in due1 && due1[c] == w
    && Legal(k1, calls[j]) && Readies(k1, T1, calls[j], c, w)
  }

  /** Neither late nor missed: over any run in which the wake time of c comes to an end, c is woken by some
      step, at exactly that time or, if it waited for an event, earlier on getting it. */
  lemma {:induction false} WakesWhenDue(k: Config, T: nat, due: map<CoRoutine, nat>, calls: seq<Call>,
                                        k': Config, T': nat, due': map<CoRoutine, nat>, c: CoRoutine)
    returns (j: nat, k1: Config, T1: nat, due1: map<CoRoutine, nat>)
    requires Kept(k, T, due) && Reaches(k, T, due, calls, k', T', due')
    requires Delayed(k.s, c) && c in due && Past(k', T', due[c])
    ensures WokenBy(k, T, due, calls, j, k1, T1, due1, c, due[c])
    ensures Asleep(k.s, c) ==> calls[j].ExpireOne? && T1 == due[c]
    decreases |calls|
  {
    hide Kept, Legal, Step, Wishes, Asleep, Past;
    NobodyOverdue(k, T, due, c);
    var call, rest := calls[0], calls[1..];
    StepWakes(k, T, due, call, c);
    if Readies(k, T, call, c, due[c]) {
      j, k1, T1, due1 := 0, k, T, due;
      assert calls[..0] == [];
      if Asleep(k.s, c) { AsleepGotNone(k, T, call, c, due[c]); }
    } else {
      var next, time, wishes := Step(k, call), Clock(T, call), Wishes(k, T, due, call);
      StepKeeps(k, T, due, call);
      if Asleep(k.s, c) { StepSleeps(k, T, due, call, c); }
      j, k1, T1, due1 := WakesWhenDue(next, time, wishes, rest, k', T', due', c);
      assert calls[..j + 1][0] == call && calls[..j + 1][1..] == rest[..j];
      j := j + 1;
    }
  }

  lemma AsleepGotNone(k: Config, T: nat, call: Call, c: CoRoutine, w: nat)
    requires Legal(k, call) && Readies(k, T, call, c, w) && Asleep(k.s, c)
    ensures call.ExpireOne? && T == w
  {
  }

  // ---------------------------------------------------------------- events

  /** An event that comes makes its co-routine pending, and nobody else. */
  lemma EventMakesPending(k: Config, c: CoRoutine)
    requires Legal(k, UnblockCall(c))
    ensures var s' := Step(k, UnblockCall(c)).s;
            s' == k.s.(onEvent := k.s.onEvent - {c}, pending := k.s.pending + [c])
  {
  }

  /** A pending co-routine stays so until a step makes it ready. */
  lemma PendingUntilReady(k: Config, T: nat, due: map<CoRoutine, nat>, call: Call, c: CoRoutine)
    requires Kept(k, T, due) && Legal(k, call) && c in k.s.pending
    ensures !call.ReadTicks?
    ensures c in Step(k, call).s.pending || (Ready(Step(k, call).s, c) && (call.ReadyOne? || call.ExpireOne?))
  {
    KeptIsInv(k, T, due);
    var s := k.s;
    match call
    case CreateCall(new_, priority) => CreateFrame(s, new_, priority);
    case DelayCall(ticks, event) => DelayFields(s, ticks, event);
    case UnblockCall(_) =>
    case EnterSchedule =>
    case ReadyOne =>
      PendingKeeps(s, T, due);
      ReadyPendingFrame(s);
    case ReadTicks(_) =>
    case AdvanceOne => AdvanceFrame(s, c);
    case ExpireOne =>
      ExpireHeadKeeps(s, T, due);
      ExpireHeadFrame(s);
      WithoutMembers(s.pending, s.delayed[0].who);
    case ExpireDone =>
    case PickOne => PickFrame(s);
  }

  /** An event is answered: once the co-routine it came for is pending, it has been made ready before any schedule
      reads the tick count, and so before that schedule picks. */
  lemma {:induction false} EventIsAnswered(k: Config, T: nat, due: map<CoRoutine, nat>, calls: seq<Call>,
                                           k': Config, T': nat, due': map<CoRoutine, nat>, i: nat, c: CoRoutine)
    returns (j: nat, k1: Config, T1: nat, due1: map<CoRoutine, nat>)
    requires Kept(k, T, due) && Reaches(k, T, due, calls, k', T', due')
    requires c in k.s.pending && i < |calls| && calls[i].ReadTicks?
    ensures j < i && Reaches(k, T, due, calls[..j], k1, T1, due1) && c in k1.s.pending
    ensures Legal(k1, calls[j]) && (calls[j].ReadyOne? || calls[j].ExpireOne?) && Ready(Step(k1, calls[j]).s, c)
    decreases |calls|
  {
    hide Kept, Legal, Step, Wishes;
    PendingUntilReady(k, T, due, calls[0], c);
    var next, time, wishes := Step(k, calls[0]), Clock(T, calls[0]), Wishes(k, T, due, calls[0]);
    if c in next.s.pending {
      StepKeeps(k, T, due, calls[0]);
      j, k1, T1, due1 := EventIsAnswered(next, time, wishes, calls[1..], k', T', due', i - 1, c);
      assert calls[..j + 1][0] == calls[0] && calls[..j + 1][1..] == calls[1..][..j];
      j := j + 1;
    } else {
      j, k1, T1, due1 := 0, k, T, due;
      assert calls[..0] == [];
    }
  }

  /** A created co-routine is ready, with the priority asked for or the highest there is; one that delays itself is
      delayed, and waits for the event it named. */
  lemma CallsTakeEffect(k: Config, T: nat, due: map<CoRoutine, nat>, call: Call)
    requires Kept(k, T, due) && Legal(k, call)
    ensures call.CreateCall? ==>
              var s' := Step(k, call).s;
              && Ready(s', call.c) && call.c in s'.priority
              && s'.priority[call.c] == if call.priority < |k.s.ready| then call.priority else |k.s.ready| - 1
    ensures call.DelayCall? ==>
              var s' := Step(k, call).s;
              Delayed(s', k.s.current) && !Ready(s', k.s.current) && (call.event ==> k.s.current in s'.onEvent)
  {
    KeptIsInv(k, T, due);
    if call.CreateCall? {
      CreateKeeps(k.s, T, due, call.c, call.priority);
      CreatedAsAsked(k.s, call.c, call.priority);
    } else if call.DelayCall? {
      DelayOnTime(k.s, T, due, call.ticks, call.event);
      ReadyOrDelayed(AddToDelayed(k.s, call.ticks, call.event), k.s.current);
    }
  }

  /** A ready co-routine stays ready until it delays itself. */
  lemma ReadyUntilItDelays(k: Config, T: nat, due: map<CoRoutine, nat>, call: Call, c: CoRoutine)
    requires Kept(k, T, due) && Legal(k, call) && Ready(k.s, c) && !(call.DelayCall? && k.s.current == c)
    ensures Ready(Step(k, call).s, c)
  {
    KeptIsInv(k, T, due);
    var s := k.s;
    match call
    case CreateCall(new_, priority) => CreateReady(s, T, due, new_, priority, c);
    case DelayCall(ticks, event) => DelayOnTime(s, T, due, ticks, event);
    case UnblockCall(d) => UnblockKeeps(s, d);
    case EnterSchedule =>
    case ReadyOne => PendingReady(s, T, due, c);
    case ReadTicks(_) =>
    case AdvanceOne =>
    case ExpireOne => ExpireHeadKeeps(s, T, due);
    case ExpireDone =>
    case PickOne =>
      RunsHighest(s);
      assert Where(Pick(s), c) == Where(s, c);
  }

  lemma PendingReady(s: State, T: nat, due: map<CoRoutine, nat>, c: CoRoutine)
    requires Timely(s, T, due) && s.pending != [] && Ready(s, c)
    ensures Ready(ReadyPending(s), c)
  {
    PendingKeeps(s, T, due);
    var p := s.pending[0];
    assert p in s.pending;
    var s1 := s.(pending := s.pending[1..], delayed := DropDelay(s.delayed, p), overflow := DropDelay(s.overflow, p));
    ReadyOrDelayed(s, p);
    PendingPlaced(s, s1, p);
    MakeReadyKeeps(s1, p);
  }

  lemma CreateReady(s: State, T: nat, due: map<CoRoutine, nat>, new_: CoRoutine, priority: nat, c: CoRoutine)
    requires Timely(s, T, due) && new_ !in s.priority && new_ >= 0 && Ready(s, c)
    ensures Ready(Create(s, new_, priority), c)
  {
    RegisteredPlaced(s, new_, priority);
    MakeReadyKeeps(Registered(s, new_, priority), new_);
  }

  // ---------------------------------------------------------------- zero ticks

  /** A delay of d ticks keeps true time for some wake time if and only if d > 0, which is what the
      delay macros ask for before they call; d must be less than a full turn of the tick count. */
  lemma DelayOnTimeExactly(s: State, T: nat, due: map<CoRoutine, nat>, d: nat, event: bool)
    requires Timely(s, T, due) && Ready(s, s.current) && d < WRAP
    ensures (exists w :: WakesAt(AddToDelayed(s, d, event), T, due, s.current, w)) <==> d > 0
  {
    if d > 0 {
      DelayOnTime(s, T, due, d, event);
      assert WakesAt(AddToDelayed(s, d, event), T, due, s.current, T + d);
    } else {
      forall w ensures !WakesAt(AddToDelayed(s, 0, event), T, due, s.current, w) {
        ZeroDelayHasNoTime(s, T, due, event, w);
      }
    }
  }

  /** The state keeps true time with wake time w for c. */
  ghost predicate WakesAt(s: State, T: nat, due: map<CoRoutine, nat>, c: CoRoutine, w: nat) {
    OnTime(s, T, due[c := w])
  }

  /** A zero delay lists the co-routine at the current tick, which no later time of the epoch has. */
  lemma ZeroDelayHasNoTime(s: State, T: nat, due: map<CoRoutine, nat>, event: bool, w: nat)
    requires s.tick == T % WRAP && Known(s, s.current)
    ensures !OnTime(AddToDelayed(s, 0, event), T, due[s.current := w])
  {
    var d := Delay(s.tick, s.current);
    var k := ZeroDelayIsListed(s, event);
    var s', due' := AddToDelayed(s, 0, event), due[s.current := w];
    assert !(w > T && w / WRAP == T / WRAP && d.wake == w % WRAP) by {
      if w > T && w / WRAP == T / WRAP { SameEpoch(T, w); }
    }
    assert AllDueIn(s'.delayed, T / WRAP, due') ==> Due(s'.delayed[k], T / WRAP, due');
    assert AllFrom(s'.delayed, T + 1, due') ==> due'[s'.delayed[k].who] > T;
  }

  lemma ZeroDelayIsListed(s: State, event: bool) returns (k: nat)
    requires 0 <= s.tick < WRAP && Known(s, s.current)
    ensures var s' := AddToDelayed(s, 0, event);
            && k < |s'.delayed| && s'.delayed[k] == Delay(s.tick, s.current) && s'.tick == s.tick
  {
    hide AddToDelayed;
    DelayFields(s, 0, event);
    k := InsertionPoint(Wakes(s.delayed), s.tick);
    assert InsertDelay(s.delayed, Delay(s.tick, s.current))[k] == Delay(s.tick, s.current);
  }

  lemma SameEpoch(T: nat, w: nat)
    requires w > T && w / WRAP == T / WRAP
    ensures w % WRAP > T % WRAP
  {
  }

  ghost function Dropped(s: State): State
    requires Known(s, s.current)
  {
    var p := s.priority[s.current];
    s.(ready := s.ready[p := s.ready[p].Drop(s.current)])
  }

  lemma {:induction false} InsertInFront(ds: seq<Delay>, d: Delay)
    requires forall i :: 0 <= i < |ds| ==> d.wake < ds[i].wake
    ensures InsertDelay(ds, d) == [d] + ds
  {
    assert InsertionPoint(Wakes(ds), d.wake) == 0 by {
      if ds != [] { assert Wakes(ds)[0] == ds[0].wake; }
    }
    assert ds[..0] == [] && ds[0..] == ds;
  }

  lemma AllLater(s: State, T: nat, due: map<CoRoutine, nat>)
    requires OnTime(s, T, due)
    ensures forall i :: 0 <= i < |s.delayed| ==> s.tick < s.delayed[i].wake
  {
    forall i | 0 <= i < |s.delayed| ensures s.tick < s.delayed[i].wake {
      assert Due(s.delayed[i], T / WRAP, due);
      SameEpoch(T, due[s.delayed[i].who]);
    }
  }

  /** Delayed by zero ticks, it is in front of all others, whose wake times are later. */
  lemma ZeroDelayIsHead(s: State, T: nat, due: map<CoRoutine, nat>, event: bool)
    requires Timely(s, T, due) && Ready(s, s.current)
    ensures AddToDelayed(s, 0, event) ==
            Dropped(s).(delayed := [Delay(s.tick, s.current)] + s.delayed,
                        onEvent := if event then s.onEvent + {s.current} else s.onEvent)
  {
    AllLater(s, T, due);
    InsertInFront(s.delayed, Delay(s.tick, s.current));
    hide InsertDelay, OnTime, ReadyOk, PlacedBut, EventsOk;
    assert (s.tick + 0) % WRAP == s.tick;
  }

  /** A zero delay before the last tick of an epoch is one of a single tick: the next tick wakes the
      co-routine and keeps everybody else's time. */
  lemma ZeroDelayIsOneTick(s: State, T: nat, due: map<CoRoutine, nat>, event: bool)
    requires Timely(s, T, due) && Ready(s, s.current) && s.tick < WRAP - 1
    ensures Timely(Tick(AddToDelayed(s, 0, event)), T + 1, due) && Ready(Tick(AddToDelayed(s, 0, event)), s.current)
  {
    ZeroDelayExpires(s, T, due, event);
    var e := MakeReady(Advance(Dropped(s)), s.current);
    ZeroDelayWoken(s, T, due);
    hide Timely, Inv, AtTick, AddToDelayed, Advance, MakeReady, Ready, Tick;
    ExpireKeeps(e, T + 1, due);
    ExpireIsTimely(e, T + 1, due);
  }

  lemma ExpireIsTimely(s: State, T: nat, due: map<CoRoutine, nat>)
    requires Inv(s) && AtTick(s, T, due)
    ensures Timely(Expire(s), T, due)
  {
    ExpireKeeps(s, T, due);
  }

  lemma ZeroDelayExpires(s: State, T: nat, due: map<CoRoutine, nat>, event: bool)
    requires Timely(s, T, due) && Ready(s, s.current) && s.tick < WRAP - 1
    ensures Tick(AddToDelayed(s, 0, event)) == Expire(MakeReady(Advance(Dropped(s)), s.current))
  {
    var c, s' := s.current, AddToDelayed(s, 0, event);
    ZeroDelayIsHead(s, T, due, event);
    ReadyOrDelayed(s, c);
    WithoutMembers(s.pending, c);
    NoEvent(s, c);
    hide AddToDelayed, MakeReady, OnTime, ReadyOk, PlacedBut, EventsOk, Ready;
    var a := Advance(s');
    assert a == Advance(Dropped(s)).(delayed := s'.delayed, onEvent := s'.onEvent);
    assert a.delayed[1..] == s.delayed && a.delayed[0] == Delay(s.tick, c);
    assert s'.onEvent - {c} == s.onEvent;
    assert ExpireHead(a) == MakeReady(Advance(Dropped(s)), c);
  }

  lemma NoEvent(s: State, c: CoRoutine)
    requires Inv(s) && Ready(s, c)
    ensures c !in s.pending && c !in s.onEvent
  {
    ReadyOrDelayed(s, c);
  }

  lemma ZeroDelayWoken(s: State, T: nat, due: map<CoRoutine, nat>)
    requires Timely(s, T, due) && Ready(s, s.current) && s.tick < WRAP - 1
    ensures var e := MakeReady(Advance(Dropped(s)), s.current);
            Inv(e) && AtTick(e, T + 1, due) && Ready(e, s.current)
  {
    AdvanceOnTime(s, T, due);
    hide ReadyOk, PlacedBut, EventsOk, AtTick, OnTime, MakeReady;
    DropThenAdvance(s);
    WokenKeeps(Advance(s), T + 1, due);
  }

  lemma DropThenAdvance(s: State)
    requires Ready(s, s.current)
    ensures Ready(Advance(s), s.current) && Advance(Dropped(s)) == Dropped(Advance(s)) && Advance(s).current == s.current
  {
  }

  lemma WokenKeeps(a: State, T: nat, due: map<CoRoutine, nat>)
    requires Inv(a) && AtTick(a, T, due) && Ready(a, a.current)
    ensures var e := MakeReady(Dropped(a), a.current); Inv(e) && AtTick(e, T, due) && Ready(e, a.current)
  {
    var e := MakeReady(Dropped(a), a.current);
    DropReadyKeeps(a, a.current);
    MakeReadyFrame(Dropped(a), a.current);
    hide ReadyOk, PlacedBut, EventsOk, AtTick, Ready, MakeReady;
    MakeReadyKeeps(Dropped(a), a.current);
    SameLists(a, e, T, due);
  }

  lemma MakeReadyFrame(s: State, c: CoRoutine)
    ensures MakeReady(s, c) == s.(ready := MakeReady(s, c).ready, top := MakeReady(s, c).top)
  {
  }

  /** What depends on the delayed lists and the events alone. */
  lemma SameLists(a: State, e: State, T: nat, due: map<CoRoutine, nat>)
    requires Inv(a) && AtTick(a, T, due) && ReadyOk(e) && PlacedBut(e, {})
    requires e.delayed == a.delayed && e.overflow == a.overflow && e.tick == a.tick
    requires e.pending == a.pending && e.onEvent == a.onEvent
    ensures Inv(e) && AtTick(e, T, due)
  {
    hide ReadyOk, PlacedBut;
    forall c ensures Delayed(e, c) == Delayed(a, c) {}
  }

  /** At the last tick of an epoch it is swapped into the overflow list and sleeps two whole turns of the
      tick count: from the next tick on the state keeps true time with that wake time, so WakesWhenDue
      and SleepsUntilDue hold with it. */
  lemma ZeroDelaySleepsTwoTurns(s: State, T: nat, due: map<CoRoutine, nat>, event: bool)
    requires Timely(s, T, due) && Ready(s, s.current) && s.tick == WRAP - 1
    ensures var s' := Tick(AddToDelayed(s, 0, event));
            Timely(s', T + 1, due[s.current := T + 2 * WRAP]) && Delayed(s', s.current)
  {
    var c, w, s' := s.current, T + 2 * WRAP, AddToDelayed(s, 0, event);
    var due' := due[c := w];
    ZeroDelayAtSwap(s, T, due, event);
    assert Delayed(Advance(s'), c) by { assert Whos(Advance(s').overflow)[0] == c; }
    hide Timely, Inv, AtTick, AddToDelayed, Advance, Delayed, Tick;
    ExpireKeeps(Advance(s'), T + 1, due');
    ExpireIsTimely(Advance(s'), T + 1, due');
    TickIs(s');
  }

  lemma TickIs(s: State)
    ensures Tick(s) == Expire(Advance(s))
  {
  }

  lemma ZeroDelayAtSwap(s: State, T: nat, due: map<CoRoutine, nat>, event: bool)
    requires Timely(s, T, due) && Ready(s, s.current) && s.tick == WRAP - 1
    ensures var a := Advance(AddToDelayed(s, 0, event));
            && Inv(a) && AtTick(a, T + 1, due[s.current := T + 2 * WRAP])
            && a.overflow == [Delay(WRAP - 1, s.current)]
  {
    var c, s' := s.current, AddToDelayed(s, 0, event);
    var d := Delay(s.tick, c);
    AdvanceOnTime(s, T, due);
    assert s.delayed == [] && [d] + s.delayed == [d];
    ZeroDelayIsHead(s, T, due, event);
    ZeroDelayInv(s, s', event);
    SwapIsAtTick(s, s', T, due);
    hide AddToDelayed, AtTick, OnTime, Timely, ReadyOk, PlacedBut, EventsOk, Ready;
    AdvanceKeepsInv(s');
  }

  lemma SwapIsAtTick(s: State, s': State, T: nat, due: map<CoRoutine, nat>)
    requires Timely(s, T, due) && Ready(s, s.current) && s.tick == s'.tick == WRAP - 1
    requires s'.delayed == [Delay(s.tick, s.current)] && s'.overflow == s.overflow
    ensures AtTick(Advance(s'), T + 1, due[s.current := T + 2 * WRAP])
    ensures Advance(s').overflow == s'.delayed
  {
    ReadyOrDelayed(s, s.current);
    hide ReadyOk, PlacedBut, EventsOk, Ready;
    TwoTurns(T);
    KeepDue(s.overflow, T / WRAP + 1, due, s.current, T + 2 * WRAP);
    NextTick(T);
    SwapDue(s, T, due, T + 2 * WRAP);
    OneIsSorted(Delay(s.tick, s.current));
  }

  lemma OneIsSorted(d: Delay)
    ensures Sorted(Wakes([d]))
  {
  }

  lemma AdvanceKeepsInv(s: State)
    requires Inv(s)
    ensures Inv(Advance(s))
  {
    forall c ensures Ready(Advance(s), c) == Ready(s, c) && Delayed(Advance(s), c) == Delayed(s, c) {}
  }

  lemma ZeroDelayInv(s: State, s': State, event: bool)
    requires Inv(s) && Ready(s, s.current) && s.delayed == []
    requires s' == Dropped(s).(delayed := [Delay(s.tick, s.current)],
                               onEvent := if event then s.onEvent + {s.current} else s.onEvent)
    ensures Inv(s')
  {
    var c, d := s.current, Delay(s.tick, s.current);
    NoEvent(s, c);
    DropReadyKeeps(s, c);
    DelayPlacedFirst(Dropped(s), s', d);
    SameReadyLists(Dropped(s), s');
    hide ReadyOk, PlacedBut, Ready;
    forall x ensures Delayed(s', x) <==> Delayed(s, x) || x == c { assert Delayed(Dropped(s), x) == Delayed(s, x); }
  }

  lemma SameReadyLists(s: State, s': State)
    requires ReadyOk(s) && s'.ready == s.ready && s'.top == s.top && s'.priority == s.priority
    ensures ReadyOk(s')
  {
  }

  lemma DelayPlacedFirst(s1: State, s': State, d: Delay)
    requires PlacedBut(s1, {d.who}) && s'.ready == s1.ready && s'.priority == s1.priority
    requires s1.delayed == [] && s'.delayed == [d] && s'.overflow == s1.overflow
    ensures PlacedBut(s', {}) && forall c :: Delayed(s', c) <==> Delayed(s1, c) || c == d.who
  {
    forall c ensures Ready(s', c) == Ready(s1, c) {}
    assert forall c :: c in Whos([d]) <==> c == d.who by { assert Whos([d])[0] == d.who; }
    assert AllKnown(s', s'.overflow) by { assert AllKnown(s1, s1.overflow); }
  }

  lemma SwapDue(s: State, T: nat, due: map<CoRoutine, nat>, w: nat)
    requires OnTime(s, T, due) && (T + 1) % WRAP == 0 && AllDueIn(s.overflow, T / WRAP + 1, due[s.current := w])
    ensures AllFrom(s.overflow, T + 1, due[s.current := w])
  {
    var due' := due[s.current := w];
    forall i | 0 <= i < |s.overflow| ensures s.overflow[i].who in due' && due'[s.overflow[i].who] >= T + 1 {
      assert Due(s.overflow[i], T / WRAP + 1, due');
    }
  }

  lemma TwoTurns(T: nat)
    requires T % WRAP == WRAP - 1
    ensures (T + 2 * WRAP) % WRAP == WRAP - 1 && (T + 2 * WRAP) / WRAP == (T + 1) / WRAP + 1
  {
  }

  // ---------------------------------------------------------------- a schedule without interrupts

  predicate Disturbs(call: Call) { call.UnblockCall? || call.DelayCall? || call.CreateCall? }

  ghost predicate Undisturbed(calls: seq<Call>) {
    forall call :: call in calls ==> !Disturbs(call)
  }

  lemma {:induction false} ReachesConcat(k: Config, T: nat, due: map<CoRoutine, nat>, calls: seq<Call>, k1: Config, T1: nat,
                                         calls': seq<Call>, k2: Config, T2: nat)
    requires Reaches(k, T, due, calls, k1, T1, due) && Reaches(k1, T1, due, calls', k2, T2, due)
    requires Undisturbed(calls) && Undisturbed(calls')
    ensures Reaches(k, T, due, calls + calls', k2, T2, due) && Undisturbed(calls + calls')
    decreases |calls|
  {
    hide Legal, Step;
    if calls == [] {
      assert calls + calls' == calls';
    } else {
      assert (calls + calls')[1..] == calls[1..] + calls' && calls[0] in calls;
      ReachesConcat(Step(k, calls[0]), Clock(T, calls[0]), due, calls[1..], k1, T1, calls', k2, T2);
    }
  }

  lemma Then(k: Config, T: nat, due: map<CoRoutine, nat>, call: Call, calls: seq<Call>, k': Config, T': nat)
    requires Legal(k, call) && !Disturbs(call) && Undisturbed(calls)
    requires Reaches(Step(k, call), Clock(T, call), due, calls, k', T', due)
    ensures Reaches(k, T, due, [call] + calls, k', T', due) && Undisturbed([call] + calls)
  {
    assert ([call] + calls)[1..] == calls;
  }

  lemma {:induction false} PendingSteps(s: State, T: nat, due: map<CoRoutine, nat>) returns (calls: seq<Call>)
    ensures Undisturbed(calls) && CheckPending(s).pending == []
    ensures Reaches(Config(s, Readying), T, due, calls, Config(CheckPending(s), Readying), T, due)
    decreases |s.pending|
  {
    if s.pending == [] {
      calls := [];
    } else {
      PendingShrinks(s);
      var rest := PendingSteps(ReadyPending(s), T, due);
      Then(Config(s, Readying), T, due, ReadyOne, rest, Config(CheckPending(s), Readying), T);
      calls := [ReadyOne] + rest;
    }
  }

  lemma {:induction false} ExpireSteps(s: State, T: nat, due: map<CoRoutine, nat>, left: nat) returns (calls: seq<Call>)
    ensures Undisturbed(calls)
    ensures Reaches(Config(s, Expiring(left)), T, due, calls, Config(Expire(s), Ticking(left)), T, due)
    decreases |s.delayed|
  {
    var k, end := Config(s, Expiring(left)), Config(Expire(s), Ticking(left));
    if HeadIsDue(s) {
      ExpireHeadFrame(s);
      var rest := ExpireSteps(ExpireHead(s), T, due, left);
      Then(k, T, due, ExpireOne, rest, end, T);
      calls := [ExpireOne] + rest;
    } else {
      assert Reaches(end, T, due, [], end, T, due);
      Then(k, T, due, ExpireDone, [], end, T);
      calls := [ExpireDone] + [];
    }
  }

  lemma {:induction false} TickSteps(s: State, T: nat, due: map<CoRoutine, nat>, left: nat) returns (calls: seq<Call>)
    ensures Undisturbed(calls)
    ensures Reaches(Config(s, Ticking(left)), T, due, calls, Config(Ticks(s, left), Ticking(0)), T + left, due)
    decreases left
  {
    if left == 0 {
      calls := [];
    } else {
      var k, mid, end := Config(s, Ticking(left)), Config(Tick(s), Ticking(left - 1)), Config(Ticks(s, left), Ticking(0));
      var expire := ExpireSteps(Advance(s), T + 1, due, left - 1);
      Then(k, T, due, AdvanceOne, expire, mid, T + 1);
      var rest := TickSteps(Tick(s), T + 1, due, left - 1);
      ReachesConcat(k, T, due, [AdvanceOne] + expire, mid, T + 1, rest, end, T + left);
      calls := ([AdvanceOne] + expire) + rest;
    }
  }

  lemma PickStep(s: State, T: nat, due: map<CoRoutine, nat>) returns (calls: seq<Call>)
    ensures Undisturbed(calls) && Reaches(Config(s, Ticking(0)), T, due, calls, Config(Pick(s), Outside), T, due)
  {
    var end := Config(Pick(s), Outside);
    assert Reaches(end, T, due, [], end, T, due);
    Then(Config(s, Ticking(0)), T, due, PickOne, [], end, T);
    calls := [PickOne] + [];
  }

  /** From the reading of the tick count on. */
  lemma CheckSteps(s: State, T: nat, due: map<CoRoutine, nat>, passed: nat) returns (calls: seq<Call>)
    requires s.pending == []
    ensures Undisturbed(calls)
    ensures Reaches(Config(s, Readying), T, due, calls, Config(Pick(Ticks(s, passed)), Outside), T + passed, due)
  {
    var s2 := Ticks(s, passed);
    var end := Config(Pick(s2), Outside);
    var ticks := TickSteps(s, T, due, passed);
    var picked := PickStep(s2, T + passed, due);
    hide Ticks, Pick, Reaches, Undisturbed;
    ReachesConcat(Config(s, Ticking(passed)), T, due, ticks, Config(s2, Ticking(0)), T + passed, picked, end, T + passed);
    Then(Config(s, Readying), T, due, ReadTicks(passed), ticks + picked, end, T + passed);
    calls := [ReadTicks(passed)] + (ticks + picked);
  }

  /** Without interrupts the steps of a schedule add up to what Schedule computes in one go. */
  lemma ScheduleIsSteps(s: State, T: nat, due: map<CoRoutine, nat>, passed: nat) returns (calls: seq<Call>)
    ensures Undisturbed(calls)
    ensures Reaches(Config(s, Outside), T, due, calls, Config(Schedule(s, passed), Outside), T + passed, due)
  {
    var s1, end := CheckPending(s), Config(Schedule(s, passed), Outside);
    var pending := PendingSteps(s, T, due);
    var rest := CheckSteps(s1, T, due, passed);
    hide CheckPending, Ticks, Pick, Reaches, Undisturbed;
    ReachesConcat(Config(s, Readying), T, due, pending, Config(s1, Readying), T, rest, end, T + passed);
    Then(Config(s, Outside), T, due, EnterSchedule, pending + rest, end, T + passed);
    calls := [EnterSchedule] + (pending + rest);
  }

  // ---------------------------------------------------------------- fair sharing over schedules

  /** The co-routines that successive schedules run, the i-th one after passes[i] ticks. */
  ghost function Schedules(s: State, passes: seq<nat>): (runs: seq<CoRoutine>)
    ensures |runs| == |passes|
    decreases |passes|
  {
    if passes == [] then []
    else [Schedule(s, passes[0]).current] + Schedules(Schedule(s, passes[0]), passes[1..])
  }

  function Sum(passes: seq<nat>): nat {
    if passes == [] then 0 else passes[0] + Sum(passes[1..])
  }

  /** No delayed co-routine is due up to time `end`. */
  ghost predicate QuietUntil(s: State, end: nat, due: map<CoRoutine, nat>) {
    forall c :: Delayed(s, c) ==> c in due && due[c] > end
  }

  /** What picking depends on. */
  ghost predicate SameReady(s: State, t: State) { s.ready == t.ready && s.top == t.top }

  lemma QuietTick(s: State, T: nat, end: nat, due: map<CoRoutine, nat>)
    requires Timely(s, T, due) && QuietUntil(s, end, due) && T < end
    ensures Timely(Tick(s), T + 1, due) && QuietUntil(Tick(s), end, due)
    ensures SameReady(Tick(s), s) && Tick(s).pending == s.pending
  {
    AdvanceOnTime(s, T, due);
    var s1 := Advance(s);
    if s1.delayed != [] {
      var d := s1.delayed[0];
      assert Whos(s1.delayed)[0] == d.who && Delayed(s1, d.who);
      assert Due(d, (T + 1) / WRAP, due);
      SameEpoch(T + 1, due[d.who]);
    }
    assert Tick(s) == s1;
    TickIsExact(s, T, due);
  }

  lemma {:induction false} QuietTicks(s: State, T: nat, end: nat, last: nat, due: map<CoRoutine, nat>)
    requires Timely(s, T, due) && QuietUntil(s, last, due) && T <= end <= last
    ensures Timely(Ticks(s, end - T), end, due) && QuietUntil(Ticks(s, end - T), last, due)
    ensures SameReady(Ticks(s, end - T), s) && Ticks(s, end - T).pending == s.pending
    decreases end - T
  {
    if T < end {
      QuietTick(s, T, last, due);
      TicksStep(s, T, end);
      QuietTicks(Tick(s), T + 1, end, last, due);
    }
  }

  /** A schedule with nobody to wake picks as if no time had passed. */
  lemma QuietSchedule(s: State, T: nat, due: map<CoRoutine, nat>, passed: nat, last: nat)
    requires Timely(s, T, due) && s.pending == [] && QuietUntil(s, last, due) && T + passed <= last
    ensures var s' := Schedule(s, passed);
            && Timely(s', T + passed, due) && s'.pending == [] && QuietUntil(s', last, due)
            && SameReady(s', Pick(s))
    ensures (exists p :: Running(s, p)) ==> Schedule(s, passed).current == Pick(s).current
  {
    var end := T + passed;
    assert CheckPending(s) == s && end - T == passed;
    QuietTicks(s, T, end, last, due);
    var t := Ticks(s, passed);
    ScheduleKeeps(s, T, due, passed);
    PickFrame(t);
    PickSame(s, t);
  }

  lemma PickSame(s: State, t: State)
    requires SameReady(s, t)
    ensures SameReady(Pick(s), Pick(t))
    ensures (exists p :: Running(s, p)) ==> Pick(s).current == Pick(t).current
  {
  }

  lemma {:induction false} PicksSame(s: State, t: State, p: nat, n: nat)
    requires SameReady(s, t) && Running(s, p)
    ensures Picks(s, n) == Picks(t, n)
    decreases n
  {
    if n > 0 {
      PickSame(s, t);
      PickRunning(s, p);
      PicksSame(Pick(s), Pick(t), p, n - 1);
    }
  }

  lemma PickRunning(s: State, p: nat)
    requires Running(s, p)
    ensures Running(Pick(s), p) && |Pick(s).ready[p].ring| == |s.ready[p].ring|
  {
  }

  lemma {:induction false} SchedulesArePicks(s: State, T: nat, due: map<CoRoutine, nat>, passes: seq<nat>, last: nat, p: nat)
    requires Timely(s, T, due) && s.pending == [] && QuietUntil(s, last, due) && T + Sum(passes) <= last && Running(s, p)
    ensures Schedules(s, passes) == Picks(s, |passes|)
    decreases |passes|
  {
    hide Timely, QuietUntil, Pick, Schedule;
    if passes != [] {
      QuietSchedule(s, T, due, passes[0], last);
      var s' := Schedule(s, passes[0]);
      PickRunning(s, p);
      SchedulesArePicks(s', T + passes[0], due, passes[1..], last, p);
      PicksSame(s', Pick(s), p, |passes| - 1);
    }
  }

  /** Fair sharing: while nobody is woken, so that the highest ready list keeps its k co-routines, any k
      successive schedules, whatever time passes between them, run each of these once, in list order. */
  lemma FairSharing(s: State, T: nat, due: map<CoRoutine, nat>, passes: seq<nat>, last: nat, p: nat, start: nat)
    requires Timely(s, T, due) && s.pending == [] && QuietUntil(s, last, due) && T + Sum(passes) <= last
    requires Running(s, p) && start < |s.ready[p].ring| - 1 && |passes| == start + |s.ready[p].ring| - 1
    ensures var w := Walk(s.ready[p].ring, s.ready[p].pos);
            && |w| == |s.ready[p].ring| - 1 && Schedules(s, passes)[start..] == w[start..] + w[..start]
            && multiset(Schedules(s, passes)[start..]) == multiset(s.ready[p].ring[1..])
  {
    hide Timely, QuietUntil, Schedules, Picks;
    SchedulesArePicks(s, T, due, passes, last, p);
    PicksAreFair(s, p, start);
  }
}
