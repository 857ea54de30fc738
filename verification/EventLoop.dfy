/** furi/core/event_loop.c and the notifying side of furi/core/message_queue.c on values: the
    subscription tree, the link slots, the waiting list and the notification flags. */
module EventLoopState {
  import opened Sequences

  datatype Direction = In | Out

  datatype Flag = EventFlag | StopFlag | TimerFlag | PendingFlag | ThreadFlag

  /** A subscription; `owned` says that its owner field still points to the loop. */
  datatype Item = Item(owned: bool, obj: nat, direction: Direction, edge: bool)

  /** One of the two link slots of an object; another loop may use the one this loop does not. */
  datatype Slot = Empty | Own(item: nat) | Foreign

  datatype MessageQueue = MessageQueue(count: nat, capacity: nat, itemIn: Slot, itemOut: Slot)
  {
    function Link(d: Direction): Slot { if d.In? then itemIn else itemOut }

    function SetLink(d: Direction, slot: Slot): (q: MessageQueue)
      ensures forall e: Direction :: q.Link(e) == if e == d then slot else Link(e)
    {
      if d.In? then this.(itemIn := slot) else this.(itemOut := slot)
    }

    /** get_level of the contract: something to get, or room to put. */
    predicate Level(d: Direction) { if d.In? then count > 0 else count < capacity }
  }

  /** The loop's memory.  Items are numbered in the order they are allocated, so that `freed` can say
      how often each allocation was given back; `dropped` remembers the flags that a stop threw away
      and that were not raised since. */
  datatype Loop = Loop(items: map<nat, Item>, next: nat, freed: multiset<nat>, tree: map<nat, nat>,
                       queues: map<nat, MessageQueue>, waiting: seq<nat>, current: Option<nat>,
                       callbacks: seq<nat>, flags: set<Flag>, notified: bool, dropped: set<Flag>)

  /** xTaskNotify with eSetBits. */
  function Raise(w: Loop, flags: set<Flag>): Loop {
    w.(flags := w.flags + flags, notified := true, dropped := w.dropped - flags)
  }

  /** furi_event_loop_item_notify's critical section: an item is listed at most once. */
  function Enlist(w: Loop, item: nat): Loop {
    if item in w.waiting then w else w.(waiting := w.waiting + [item])
  }

  function Notify(w: Loop, item: nat): Loop { Raise(Enlist(w, item), {EventFlag}) }

  /** furi_event_loop_link_notify. */
  function LinkNotify(w: Loop, obj: nat, d: Direction): Loop {
    if obj in w.queues && w.queues[obj].Link(d).Own? then Notify(w, w.queues[obj].Link(d).item) else w
  }

  function Free(w: Loop, item: nat): Loop {
    w.(items := w.items - {item}, freed := w.freed + multiset{item})
  }

  /** furi_event_loop_object_subscribe; None is a failed furi_check. */
  function Subscribe(w: Loop, obj: nat, d: Direction, edge: bool): Option<Loop> {
    if obj !in w.queues || obj in w.tree || w.queues[obj].Link(d) != Empty then None
    else
      var item, q := w.next, w.queues[obj];
      var linked := w.(items := w.items[item := Item(true, obj, d, edge)], next := item + 1,
                       tree := w.tree[obj := item], queues := w.queues[obj := q.SetLink(d, Own(item))]);
      Some(if !edge && q.Level(d) then Notify(linked, item) else linked)
  }

  /** furi_event_loop_unsubscribe; None is a failed furi_check. */
  function Unsubscribe(w: Loop, obj: nat): Option<Loop> {
    if obj !in w.tree then None
    else
      var item := w.tree[obj];
      if item !in w.items || !w.items[item].owned || obj !in w.queues
         || w.queues[obj].Link(w.items[item].direction) != Own(item) then None
      else
        var it, q := w.items[item], w.queues[obj];
        var out := w.(tree := w.tree - {obj}, queues := w.queues[obj := q.SetLink(it.direction, Empty)],
                      waiting := Without(w.waiting, item));
        Some(if w.current == Some(item) then out.(items := w.items[item := it.(owned := false)]) else Free(out, item))
  }

  // ---------------------------------------------------------------- the loop as a state machine

  datatype Status = Complete | Incomplete

  /** Where the loop's thread is.  `saved` holds the flags to put back at the end of the pass. */
  datatype Control =
    | Stopped
    | Waiting
    | Popping(saved: set<Flag>)
    | Selected(item: nat, saved: set<Flag>)
    | InCallback(item: nat, saved: set<Flag>)
    | Deciding(item: nat, status: Status, saved: set<Flag>)
    | Raising(saved: set<Flag>)
    | Syncing(saved: set<Flag>)
    | Restoring(saved: set<Flag>)
    | InTimers(saved: set<Flag>)
    | InPending(busy: bool)
    | InOther
    | Crashed
  {
    function Saved(): set<Flag> {
      if Popping? || Selected? || InCallback? || Deciding? || Raising? || Syncing? || Restoring? || InTimers? then saved
      else {}
    }

    /** Between taking the Event flag and furi_event_loop_sync_flags. */
    predicate InEventPass() { Popping? || Selected? || InCallback? || Deciding? || Raising? || Syncing? }

    predicate Handles(a: nat) { (Selected? || InCallback? || Deciding?) && item == a }

    /** The loop's thread is in a callback, or outside furi_event_loop_run. */
    predicate UserCode() { Stopped? || InCallback? || InPending(true) == this || InOther? }
  }

  /** `notifiers` are the calls that changed a queue and have not yet notified its link. */
  datatype State = State(w: Loop, pc: Control, notifiers: multiset<(nat, Direction)>)

  datatype Step =
    | Put(obj: nat) | Get(obj: nat) | Reset(obj: nat)
    | Finish(obj: nat, direction: Direction)
    | RequestStop | RequestTimer | RequestThread
    | ForeignSubscribe(obj: nat, direction: Direction) | ForeignUnsubscribe(obj: nat, direction: Direction)
    | UserSubscribe(obj: nat, direction: Direction, edge: bool) | UserUnsubscribe(obj: nat) | UserPend(callback: nat)
    | Advance | Timeout

  /** The order in which furi_event_loop_run looks at the flags it took. */
  function Branch(flags: set<Flag>): Option<Flag> {
    if StopFlag in flags then Some(StopFlag)
    else if EventFlag in flags then Some(EventFlag)
    else if TimerFlag in flags then Some(TimerFlag)
    else if PendingFlag in flags then Some(PendingFlag)
    else if ThreadFlag in flags then Some(ThreadFlag)
    else None
  }

  function Dispatch(flags: set<Flag>): (pc: Control)
    ensures !pc.Selected? && !pc.InCallback? && !pc.Deciding?
  {
    match Branch(flags)
    case None => Crashed
    case Some(StopFlag) => Stopped
    case Some(EventFlag) => Popping(flags - {EventFlag})
    case Some(TimerFlag) => InTimers(flags - {TimerFlag})
    case Some(PendingFlag) => InPending(false)
    case Some(ThreadFlag) => InOther
  }

  /** xTaskNotifyWait: all flags are taken at once. */
  function TakeFlags(w: Loop): Loop {
    w.(flags := {}, notified := false,
       dropped := if StopFlag in w.flags then w.dropped + (w.flags - {StopFlag}) else w.dropped)
  }

  predicate IsHigh(w: Loop, item: nat) {
    item in w.items && w.items[item].obj in w.queues && w.queues[w.items[item].obj].Level(w.items[item].direction)
  }

  predicate IsEdge(w: Loop, item: nat) { item in w.items && w.items[item].edge }

  predicate IsOwned(w: Loop, item: nat) { item in w.items && w.items[item].owned }

  function Pop(w: Loop): Loop
    requires w.waiting != []
  {
    w.(waiting := w.waiting[1..])
  }

  /** The end of process_waiting_list for one item. */
  function Settle(w: Loop, item: nat, status: Status): Loop {
    var done := w.(current := None);
    if !IsOwned(w, item) then Free(done, item) else if status.Incomplete? then Enlist(done, item) else done
  }

  /** What one step of the loop's thread does to memory: everything up to and including its next access
      to what it shares. */
  function AdvancedLoop(w: Loop, pc: Control): Loop {
    if pc.Waiting? then TakeFlags(w)
    else if pc.Popping? && w.waiting != [] then Pop(w)
    else if pc.Selected? then w.(current := Some(pc.item))
    else if pc.Deciding? then Settle(w, pc.item, pc.status)
    else if pc.Raising? || (pc.Syncing? && w.waiting != []) then Raise(w, {EventFlag})
    else if pc.Restoring? && pc.saved != {} then Raise(w, pc.saved)
    else if pc == InPending(true) && w.callbacks != [] then w.(callbacks := w.callbacks[1..])
    else w
  }

  /** And where it goes. */
  function AdvancedControl(w: Loop, pc: Control): Control {
    match pc
    case Stopped => Waiting
    case Waiting => Dispatch(w.flags)
    case Popping(saved) => if w.waiting == [] then Restoring(saved) else Selected(w.waiting[0], saved)
    case Selected(item, saved) =>
      if IsEdge(w, item) || IsHigh(w, item) then InCallback(item, saved) else Deciding(item, Complete, saved)
    case InCallback(item, saved) =>
      Deciding(item, if !IsEdge(w, item) && IsHigh(w, item) then Incomplete else Complete, saved)
    case Deciding(item, status, saved) =>
      if IsOwned(w, item) && status.Incomplete? then Raising(saved) else Syncing(saved)
    case Raising(saved) => Syncing(saved)
    case Syncing(saved) => Restoring(saved)
    case Restoring(saved) => Waiting
    case InTimers(saved) => Restoring(saved)
    case InPending(busy) => if w.callbacks == [] then Waiting else InPending(!busy)
    case InOther => Waiting
    case Crashed => Crashed
  }

  function Advanced(s: State): State {
    State(AdvancedLoop(s.w, s.pc), AdvancedControl(s.w, s.pc), s.notifiers)
  }

  predicate Enabled(s: State, step: Step) {
    match step
    case Put(obj) => obj in s.w.queues && s.w.queues[obj].count < s.w.queues[obj].capacity
    case Get(obj) => obj in s.w.queues && s.w.queues[obj].count > 0
    case Reset(obj) => obj in s.w.queues
    case Finish(obj, d) => (obj, d) in s.notifiers
    case RequestStop => true
    case RequestTimer => true
    case RequestThread => true
    case ForeignSubscribe(obj, d) => obj in s.w.queues && s.w.queues[obj].Link(d).Empty?
    case ForeignUnsubscribe(obj, d) => obj in s.w.queues && s.w.queues[obj].Link(d).Foreign?
    case UserSubscribe(obj, d, edge) => s.pc.UserCode() && Subscribe(s.w, obj, d, edge).Some?
    case UserUnsubscribe(obj) => s.pc.UserCode() && Unsubscribe(s.w, obj).Some?
    case UserPend(_) => s.pc.UserCode()
    case Advance => !s.pc.Crashed? && (s.pc.Waiting? ==> s.w.notified)
    case Timeout => s.pc.Waiting? && !s.w.notified
  }

  function Count(w: Loop, obj: nat, count: nat): Loop
    requires obj in w.queues
  {
    w.(queues := w.queues[obj := w.queues[obj].(count := count)])
  }

  function Relink(w: Loop, obj: nat, d: Direction, slot: Slot): Loop
    requires obj in w.queues
  {
    w.(queues := w.queues[obj := w.queues[obj].SetLink(d, slot)])
  }

  /** What a step of anybody else does to memory. */
  function ChangedLoop(w: Loop, step: Step): Loop {
    match step
    case Put(obj) => if obj in w.queues then Count(w, obj, w.queues[obj].count + 1) else w
    case Get(obj) => if obj in w.queues && w.queues[obj].count > 0 then Count(w, obj, w.queues[obj].count - 1) else w
    case Reset(obj) => if obj in w.queues then Count(w, obj, 0) else w
    case Finish(obj, d) => LinkNotify(w, obj, d)
    case RequestStop => Raise(w, {StopFlag})
    case RequestTimer => Raise(w, {TimerFlag})
    case RequestThread => Raise(w, {ThreadFlag})
    case ForeignSubscribe(obj, d) => if obj in w.queues then Relink(w, obj, d, Foreign) else w
    case ForeignUnsubscribe(obj, d) => if obj in w.queues then Relink(w, obj, d, Empty) else w
    case UserSubscribe(obj, d, edge) => OrSame(w, Subscribe(w, obj, d, edge))
    case UserUnsubscribe(obj) => OrSame(w, Unsubscribe(w, obj))
    case UserPend(callback) => Raise(w.(callbacks := w.callbacks + [callback]), {PendingFlag})
    case _ => w
  }

  function OrSame(w: Loop, r: Option<Loop>): Loop { if r.Some? then r.value else w }

  function ChangedNotifiers(n: multiset<(nat, Direction)>, step: Step): multiset<(nat, Direction)> {
    if step.Put? then n + multiset{(step.obj, In)}
    else if step.Get? || step.Reset? then n + multiset{(step.obj, Out)}
    else if step.Finish? then n - multiset{(step.obj, step.direction)}
    else n
  }

  function Next(s: State, step: Step): State
    requires Enabled(s, step)
  {
    if step.Advance? then Advanced(s)
    else State(ChangedLoop(s.w, step), if step.Timeout? then InOther else s.pc, ChangedNotifiers(s.notifiers, step))
  }
}

/** What every run of the loop, its users and its notifiers keeps. */
module EventLoopRuns {
  import opened EventLoopState
  import opened Sequences

  /** Every object in the tree has a live item of this loop in the link slot of its direction. */
  ghost predicate Subscribed(w: Loop) {
    forall o :: o in w.tree ==>
      && w.tree[o] in w.items && o in w.queues
      && w.items[w.tree[o]].owned && w.items[w.tree[o]].obj == o
      && w.queues[o].Link(w.items[w.tree[o]].direction) == Own(w.tree[o])
  }

  /** Every link slot of this loop holds the item that the tree has for the object. */
  ghost predicate Linked(w: Loop) {
    forall o, d :: o in w.queues && w.queues[o].Link(d).Own? ==>
      && o in w.tree && w.tree[o] == w.queues[o].Link(d).item
      && w.tree[o] in w.items && w.items[w.tree[o]].direction == d
  }

  ghost predicate InTree(w: Loop, a: nat) {
    IsOwned(w, a) && w.items[a].obj in w.tree && w.tree[w.items[a].obj] == a
  }

  /** Waiting items are subscribed, and none waits twice. */
  ghost predicate Listed(w: Loop) {
    Distinct(w.waiting) && forall a :: a in w.waiting ==> InTree(w, a)
  }

  /** Nothing leaks: an allocated item is subscribed, or unsubscribed inside its own callback and
      still held by the loop. */
  ghost predicate Accounted(w: Loop, held: Option<nat>) {
    && (forall a :: a in w.items ==> if w.items[a].owned then InTree(w, a) else held == Some(a))
    && (held.Some? ==> held.value in w.items)
  }

  /** Every allocation is live, or was freed exactly once. */
  ghost predicate FreedOnce(w: Loop) {
    && (forall a :: a in w.items ==> a < w.next)
    && (forall a: nat :: w.freed[a] == if a < w.next && a !in w.items then 1 else 0)
  }

  ghost predicate Structure(w: Loop, held: Option<nat>) {
    Subscribed(w) && Linked(w) && Listed(w) && Accounted(w, held) && FreedOnce(w)
  }

  function Held(pc: Control): Option<nat> {
    if pc.Selected? || pc.InCallback? || pc.Deciding? then Some(pc.item) else None
  }

  function Current(pc: Control): Option<nat> {
    if pc.InCallback? || pc.Deciding? then Some(pc.item) else None
  }

  // ---------------------------------------------------------------- structure

  lemma EnlistKeeps(w: Loop, held: Option<nat>, a: nat)
    requires Structure(w, held) && IsOwned(w, a)
    ensures Structure(Enlist(w, a), held)
  {
  }

  lemma NotifyKeeps(w: Loop, held: Option<nat>, a: nat)
    requires Structure(w, held) && IsOwned(w, a)
    ensures Structure(Notify(w, a), held)
  {
    EnlistKeeps(w, held, a);
    RaiseKeeps(Enlist(w, a), held, {EventFlag});
  }

  lemma RaiseKeeps(w: Loop, held: Option<nat>, flags: set<Flag>)
    requires Structure(w, held)
    ensures Structure(Raise(w, flags), held)
  {
    var r := Raise(w, flags);
    assert forall a :: InTree(w, a) ==> InTree(r, a);
  }

  lemma LinkNotifyKeeps(w: Loop, held: Option<nat>, o: nat, d: Direction)
    requires Structure(w, held)
    ensures Structure(LinkNotify(w, o, d), held)
  {
    if o in w.queues && w.queues[o].Link(d).Own? {
      NotifyKeeps(w, held, w.queues[o].Link(d).item);
    }
  }

  function Linking(w: Loop, o: nat, d: Direction, edge: bool): Loop
    requires o in w.queues
  {
    w.(items := w.items[w.next := Item(true, o, d, edge)], next := w.next + 1, tree := w.tree[o := w.next],
       queues := w.queues[o := w.queues[o].SetLink(d, Own(w.next))])
  }

  lemma LinkingKeepsLinked(w: Loop, held: Option<nat>, o: nat, d: Direction, edge: bool)
    requires Structure(w, held) && o in w.queues && o !in w.tree && w.queues[o].Link(d) == Empty
    ensures Linked(Linking(w, o, d, edge))
  {
    var w' := Linking(w, o, d, edge);
    assert forall e :: !w.queues[o].Link(e).Own?;
    forall p, e | p in w'.queues && w'.queues[p].Link(e).Own?
      ensures p in w'.tree && w'.tree[p] == w'.queues[p].Link(e).item
              && w'.tree[p] in w'.items && w'.items[w'.tree[p]].direction == e {
      if p != o { assert w.queues[p].Link(e).Own?; }
    }
  }

  lemma LinkingKeeps(w: Loop, held: Option<nat>, o: nat, d: Direction, edge: bool)
    requires Structure(w, held) && o in w.queues && o !in w.tree && w.queues[o].Link(d) == Empty
    ensures Structure(Linking(w, o, d, edge), held)
  {
    var w' := Linking(w, o, d, edge);
    LinkingKeepsLinked(w, held, o, d, edge);
    assert forall a :: InTree(w, a) ==> InTree(w', a);
    assert InTree(w', w.next);
  }

  lemma SubscribeKeeps(w: Loop, held: Option<nat>, o: nat, d: Direction, edge: bool)
    requires Structure(w, held) && Subscribe(w, o, d, edge).Some?
    ensures Structure(Subscribe(w, o, d, edge).value, held)
  {
    LinkingKeeps(w, held, o, d, edge);
    var w' := Linking(w, o, d, edge);
    if !edge && w.queues[o].Level(d) {
      assert IsOwned(w', w.next);
      NotifyKeeps(w', held, w.next);
    }
  }

  /** The furi_checks of unsubscribe never fail for a subscribed object. */
  lemma UnsubscribeChecksHold(w: Loop, held: Option<nat>, o: nat)
    requires Structure(w, held)
    ensures Unsubscribe(w, o).Some? <==> o in w.tree
  {
  }

  lemma UnsubscribeKeepsListed(w: Loop, held: Option<nat>, o: nat)
    requires Structure(w, held) && Unsubscribe(w, o).Some?
    ensures Listed(Unsubscribe(w, o).value)
  {
    var item := w.tree[o];
    var w' := Unsubscribe(w, o).value;
    WithoutMembers(w.waiting, item);
    WithoutDistinct(w.waiting, item);
    forall a | a in w'.waiting ensures InTree(w', a) {
      assert InTree(w, a);
    }
  }

  lemma UnsubscribeKeepsLinked(w: Loop, o: nat)
    requires Subscribed(w) && Linked(w) && Unsubscribe(w, o).Some?
    ensures Linked(Unsubscribe(w, o).value)
  {
    var w' := Unsubscribe(w, o).value;
    forall p, e | p in w'.queues && w'.queues[p].Link(e).Own?
      ensures p in w'.tree && w'.tree[p] == w'.queues[p].Link(e).item
              && w'.tree[p] in w'.items && w'.items[w'.tree[p]].direction == e {
      assert w.queues[p].Link(e).Own?;
      assert p != o;
      assert w.tree[p] != w.tree[o];
    }
  }

  lemma UnsubscribeKeepsItems(w: Loop, held: Option<nat>, o: nat)
    requires Structure(w, held) && Unsubscribe(w, o).Some? && w.current == held
    ensures Accounted(Unsubscribe(w, o).value, held)
    ensures FreedOnce(Unsubscribe(w, o).value)
  {
    var item := w.tree[o];
    var w' := Unsubscribe(w, o).value;
    assert forall a :: InTree(w, a) && a != item ==> InTree(w', a);
  }

  lemma UnsubscribeKeepsTree(w: Loop, o: nat)
    requires Subscribed(w) && Unsubscribe(w, o).Some?
    ensures Subscribed(Unsubscribe(w, o).value)
  {
    assert forall p :: p in w.tree && p != o ==> w.tree[p] != w.tree[o];
  }

  lemma UnsubscribeKeeps(w: Loop, held: Option<nat>, o: nat)
    requires Structure(w, held) && Unsubscribe(w, o).Some? && w.current == held
    ensures Structure(Unsubscribe(w, o).value, held)
  {
    UnsubscribeKeepsListed(w, held, o);
    UnsubscribeKeepsLinked(w, o);
    UnsubscribeKeepsItems(w, held, o);
    UnsubscribeKeepsTree(w, o);
  }

  lemma RelinkKeeps(w: Loop, held: Option<nat>, o: nat, d: Direction, slot: Slot)
    requires Structure(w, held) && o in w.queues && !slot.Own? && !w.queues[o].Link(d).Own?
    ensures Structure(Relink(w, o, d, slot), held)
  {
    var w' := Relink(w, o, d, slot);
    assert forall a :: InTree(w, a) ==> InTree(w', a);
    forall p, e | p in w'.queues && w'.queues[p].Link(e).Own?
      ensures p in w'.tree && w'.tree[p] == w'.queues[p].Link(e).item
              && w'.tree[p] in w'.items && w'.items[w'.tree[p]].direction == e {
      assert w.queues[p].Link(e).Own?;
    }
  }

  lemma CountKeeps(w: Loop, held: Option<nat>, o: nat, count: nat)
    requires Structure(w, held) && o in w.queues
    ensures Structure(Count(w, o, count), held)
  {
    var w' := Count(w, o, count);
    assert forall a :: InTree(w, a) ==> InTree(w', a);
    assert forall p, e :: p in w.queues ==> w'.queues[p].Link(e) == w.queues[p].Link(e);
  }

  lemma PopKeeps(w: Loop)
    requires Structure(w, None) && w.waiting != []
    ensures Structure(Pop(w), Some(w.waiting[0]))
  {
    var w' := Pop(w);
    assert forall a :: InTree(w, a) ==> InTree(w', a);
    assert forall a :: a in w'.waiting ==> a in w.waiting;
    assert w.waiting[0] in w.waiting;
  }

  lemma SettleKeeps(w: Loop, a: nat, status: Status)
    requires Structure(w, Some(a))
    ensures Structure(Settle(w, a, status), None)
  {
    var done := w.(current := None);
    assert forall b :: InTree(w, b) ==> InTree(done, b);
    if IsOwned(w, a) {
      assert Structure(done, None);
      EnlistKeeps(done, None, a);
    } else {
      var freed := Free(done, a);
      assert forall b :: InTree(w, b) ==> InTree(freed, b);
    }
  }

  // ---------------------------------------------------------------- the invariant

  /** The structures agree with where the loop's thread is. */
  ghost predicate Framed(s: State) {
    Structure(s.w, Held(s.pc)) && s.w.current == Current(s.pc) && (s.pc.Selected? ==> IsOwned(s.w, s.pc.item))
  }

  /** Nothing signalled is forgotten: a non-empty waiting list has the Event flag up, unless the loop
      is in an Event pass or a stop dropped the flag; and the same for the pending callbacks. */
  ghost predicate Signalled(s: State) {
    && (s.w.notified <==> s.w.flags != {})
    && (forall f :: f in s.w.dropped ==> f !in s.w.flags)
    && (s.w.waiting != [] ==> EventFlag in s.w.flags + s.w.dropped || s.pc.InEventPass())
    && (s.w.callbacks != [] ==>
          PendingFlag in s.w.flags + s.w.dropped + s.pc.Saved() || s.pc.InPending?)
    && (s.pc == InPending(true) ==> s.w.callbacks != [])
    && !s.pc.Crashed?
  }

  /** The loop is about to look at the level of item a, or has just seen it high. */
  predicate WillLook(pc: Control, a: nat) {
    pc.Handles(a) && (pc.Deciding? ==> pc.status == Incomplete)
  }

  /** A high level of a subscribed object is on its way to the callback. */
  ghost predicate CoveredAt(s: State, o: nat)
    requires o in s.w.tree
  {
    var a := s.w.tree[o];
    !IsEdge(s.w, a) && IsHigh(s.w, a) ==>
      a in s.w.waiting || (o, s.w.items[a].direction) in s.notifiers || WillLook(s.pc, a)
  }

  ghost predicate Covered(s: State) {
    forall o :: o in s.w.tree ==> CoveredAt(s, o)
  }

  ghost predicate Inv(s: State) {
    Framed(s) && Signalled(s) && Covered(s)
  }

  lemma StepKeepsStructure(s: State, step: Step)
    requires Framed(s) && Enabled(s, step)
    ensures Framed(Next(s, step))
  {
    if step.Advance? {
      AdvanceKeepsStructure(s);
    } else if step.UserSubscribe? || step.UserUnsubscribe? || step.ForeignSubscribe? || step.ForeignUnsubscribe? {
      LinkStepKeepsStructure(s.w, step, s.pc);
    } else {
      OtherStepKeepsStructure(s.w, step, Held(s.pc));
    }
  }

  lemma LinkStepKeepsStructure(w: Loop, step: Step, pc: Control)
    requires Structure(w, Held(pc)) && Enabled(State(w, pc, multiset{}), step) && w.current == Current(pc)
    requires step.UserSubscribe? || step.UserUnsubscribe? || step.ForeignSubscribe? || step.ForeignUnsubscribe?
    requires pc.Selected? ==> IsOwned(w, pc.item)
    ensures var w' := ChangedLoop(w, step);
            Structure(w', Held(pc)) && w'.current == w.current && (pc.Selected? ==> IsOwned(w', pc.item))
  {
    match step
    case ForeignSubscribe(o, d) => RelinkKeeps(w, Held(pc), o, d, Foreign);
    case ForeignUnsubscribe(o, d) => RelinkKeeps(w, Held(pc), o, d, Empty);
    case UserSubscribe(o, d, edge) => SubscribeKeeps(w, Held(pc), o, d, edge);
    case UserUnsubscribe(o) => UnsubscribeKeeps(w, Held(pc), o);
  }

  lemma OtherStepKeepsStructure(w: Loop, step: Step, held: Option<nat>)
    requires Structure(w, held)
    requires !step.UserSubscribe? && !step.UserUnsubscribe? && !step.ForeignSubscribe? && !step.ForeignUnsubscribe?
    ensures Structure(ChangedLoop(w, step), held)
    ensures ChangedLoop(w, step).current == w.current && ChangedLoop(w, step).items == w.items
  {
    if step.Finish? {
      LinkNotifyKeeps(w, held, step.obj, step.direction);
    } else if step.Put? || step.Get? || step.Reset? {
      if step.obj in w.queues {
        var count := w.queues[step.obj].count;
        CountKeeps(w, held, step.obj, if step.Put? then count + 1 else if step.Get? && count > 0 then count - 1 else 0);
      }
    } else {
      SameStructure(w, ChangedLoop(w, step), held);
    }
  }

  /** Structure does not look at the flags, the callbacks or the current item. */
  lemma SameStructure(w: Loop, w': Loop, held: Option<nat>)
    requires Structure(w, held)
    requires w'.items == w.items && w'.next == w.next && w'.freed == w.freed && w'.tree == w.tree
    requires w'.queues == w.queues && w'.waiting == w.waiting
    ensures Structure(w', held)
  {
    assert forall a :: InTree(w, a) ==> InTree(w', a);
  }

  lemma AdvanceKeepsStructure(s: State)
    requires Framed(s) && Enabled(s, Advance)
    ensures Framed(Advanced(s))
  {
    if s.pc.Popping? && s.w.waiting != [] {
      PopKeeps(s.w);
      assert s.w.waiting[0] in s.w.waiting;
      assert InTree(s.w, s.w.waiting[0]);
    } else if s.pc.Deciding? {
      SettleKeeps(s.w, s.pc.item, s.pc.status);
    } else {
      AdvanceTouchesNoStructure(s);
      SameStructure(s.w, Advanced(s).w, Held(s.pc));
    }
  }

  lemma AdvanceTouchesNoStructure(s: State)
    requires s.w.current == Current(s.pc) && Enabled(s, Advance)
    requires !s.pc.Deciding? && (s.pc.Popping? ==> s.w.waiting == [])
    ensures var s' := Advanced(s);
            && s'.w.items == s.w.items && s'.w.next == s.w.next && s'.w.freed == s.w.freed && s'.w.tree == s.w.tree
            && s'.w.queues == s.w.queues && s'.w.waiting == s.w.waiting
            && Held(s'.pc) == Held(s.pc) && s'.w.current == Current(s'.pc) && !s'.pc.Selected?
  {
    AdvanceTouchesNoLists(s);
    AdvanceTouchesNoItem(s);
  }

  lemma LoopTouchesNoLists(w: Loop, pc: Control)
    requires !pc.Deciding? && (pc.Popping? ==> w.waiting == [])
    ensures var w' := AdvancedLoop(w, pc);
            && w'.items == w.items && w'.next == w.next && w'.freed == w.freed && w'.tree == w.tree
            && w'.queues == w.queues && w'.waiting == w.waiting
  {
    hide Settle, Pop;
  }

  lemma AdvanceTouchesNoLists(s: State)
    requires !s.pc.Deciding? && (s.pc.Popping? ==> s.w.waiting == [])
    ensures var s' := Advanced(s);
            && s'.w.items == s.w.items && s'.w.next == s.w.next && s'.w.freed == s.w.freed && s'.w.tree == s.w.tree
            && s'.w.queues == s.w.queues && s'.w.waiting == s.w.waiting && s'.notifiers == s.notifiers
  {
    hide AdvancedLoop, AdvancedControl;
    LoopTouchesNoLists(s.w, s.pc);
  }

  lemma AdvanceTouchesNoItem(s: State)
    requires s.w.current == Current(s.pc) && !s.pc.Deciding? && (s.pc.Popping? ==> s.w.waiting == [])
    ensures var s' := Advanced(s);
            Held(s'.pc) == Held(s.pc) && s'.w.current == Current(s'.pc) && !s'.pc.Selected?
  {
  }

  lemma SomeBranch(flags: set<Flag>)
    ensures Branch(flags).None? <==> flags == {}
  {
    if Branch(flags).None? {
      forall f: Flag ensures f !in flags {
        match f case EventFlag => case StopFlag => case TimerFlag => case PendingFlag => case ThreadFlag =>
      }
    }
  }

  lemma TakeKeepsSignals(s: State)
    requires Signalled(s) && s.pc.Waiting? && s.w.notified
    ensures Signalled(Advanced(s))
  {
    SomeBranch(s.w.flags);
    var b := Branch(s.w.flags);
    assert Advanced(s).pc == Dispatch(s.w.flags);
    if b == Some(EventFlag) {
    } else if b == Some(StopFlag) {
    } else {
      assert EventFlag !in s.w.flags;
    }
  }

  lemma RaiseKeepsSignals(s: State, flags: set<Flag>)
    requires Signalled(s) && flags != {}
    ensures Signalled(s.(w := Raise(s.w, flags)))
  {
    var f :| f in flags;
    assert f in Raise(s.w, flags).flags;
  }

  lemma AdvanceKeepsSignals(s: State)
    requires Signalled(s) && Enabled(s, Advance)
    ensures Signalled(Advanced(s))
  {
    match s.pc
    case Waiting => TakeKeepsSignals(s);
    case Raising(_) => RaiseKeepsSignals(s, {EventFlag});
    case Syncing(_) => if s.w.waiting != [] { RaiseKeepsSignals(s, {EventFlag}); }
    case Restoring(saved) => if saved != {} { RaiseKeepsSignals(s, saved); }
    case _ =>
  }

  lemma StepKeepsSignals(s: State, step: Step)
    requires Signalled(s) && Enabled(s, step)
    ensures Signalled(Next(s, step))
  {
    match step
    case Advance => AdvanceKeepsSignals(s);
    case Timeout =>
    case RequestStop => RaiseKeepsSignals(s, {StopFlag});
    case RequestTimer => RaiseKeepsSignals(s, {TimerFlag});
    case RequestThread => RaiseKeepsSignals(s, {ThreadFlag});
    case _ => ChangeKeepsSignals(s, step);
  }

  /** Nothing is signalled and nothing added, or what is added is signalled. */
  ghost predicate SignalsChange(w: Loop, w': Loop) {
    || (w'.flags == w.flags && w'.notified == w.notified && w'.dropped == w.dropped
        && w'.callbacks == w.callbacks && (w.waiting == [] ==> w'.waiting == []))
    || (w'.flags == w.flags + {EventFlag} && w'.notified && w'.dropped == w.dropped - {EventFlag}
        && w'.callbacks == w.callbacks)
    || (w'.flags == w.flags + {PendingFlag} && w'.notified && w'.dropped == w.dropped - {PendingFlag}
        && w'.waiting == w.waiting && w'.callbacks != [])
  }

  predicate ChangesMemory(step: Step) {
    !step.Advance? && !step.Timeout? && !step.RequestStop? && !step.RequestTimer? && !step.RequestThread?
  }

  lemma ChangedSignals(w: Loop, step: Step)
    requires ChangesMemory(step)
    ensures SignalsChange(w, ChangedLoop(w, step))
  {
    if step.UserUnsubscribe? && Unsubscribe(w, step.obj).Some? { WithoutMembers(w.waiting, w.tree[step.obj]); }
  }

  lemma SignalsFollow(s: State, s': State)
    requires Signalled(s) && s'.pc == s.pc && SignalsChange(s.w, s'.w)
    ensures Signalled(s')
  {
    if s'.w.flags == s.w.flags + {EventFlag} && s'.w.notified {
      assert EventFlag in s'.w.flags;
    } else if s'.w.flags == s.w.flags + {PendingFlag} && s'.w.notified {
      assert PendingFlag in s'.w.flags;
    }
  }

  lemma ChangeKeepsSignals(s: State, step: Step)
    requires Signalled(s) && Enabled(s, step) && ChangesMemory(step)
    ensures Signalled(Next(s, step))
  {
    hide Signalled, ChangedLoop, SignalsChange;
    ChangedSignals(s.w, step);
    SignalsFollow(s, Next(s, step));
  }

  /** Cover carries over when nothing that covers the object's item went away. */
  lemma StillCovered(s: State, s': State, o: nat)
    requires o in s.w.tree && o in s'.w.tree && s.w.tree[o] == s'.w.tree[o] && CoveredAt(s, o)
    requires var a := s.w.tree[o];
             && a in s.w.items && a in s'.w.items && s.w.items[a] == s'.w.items[a]
             && (IsHigh(s'.w, a) && !IsHigh(s.w, a) ==> (o, s.w.items[a].direction) in s'.notifiers)
             && (a in s.w.waiting ==> a in s'.w.waiting || WillLook(s'.pc, a) || !IsHigh(s'.w, a))
             && ((o, s.w.items[a].direction) in s.notifiers ==>
                   (o, s.w.items[a].direction) in s'.notifiers || a in s'.w.waiting)
             && (WillLook(s.pc, a) ==> WillLook(s'.pc, a) || a in s'.w.waiting || IsEdge(s.w, a) || !IsHigh(s'.w, a))
    ensures CoveredAt(s', o)
  {
  }

  lemma ChangeKeepsCover(s: State, step: Step)
    requires Inv(s) && Enabled(s, step) && (step.Put? || step.Get? || step.Reset?)
    ensures Covered(Next(s, step))
  {
    var s' := Next(s, step);
    forall o | o in s'.w.tree ensures CoveredAt(s', o) {
      assert CoveredAt(s, o);
      assert s'.w.queues[o].capacity == s.w.queues[o].capacity;
      StillCovered(s, s', o);
    }
  }

  lemma FinishKeepsCover(s: State, o: nat, d: Direction)
    requires Inv(s) && Enabled(s, Finish(o, d))
    ensures Covered(Next(s, Finish(o, d)))
  {
    var s' := Next(s, Finish(o, d));
    forall p | p in s'.w.tree ensures CoveredAt(s', p) {
      assert CoveredAt(s, p);
      StillCovered(s, s', p);
    }
  }

  lemma SubscribeKeepsCover(s: State, o: nat, d: Direction, edge: bool)
    requires Inv(s) && Enabled(s, UserSubscribe(o, d, edge))
    ensures Covered(Next(s, UserSubscribe(o, d, edge)))
  {
    var s' := Next(s, UserSubscribe(o, d, edge));
    forall p | p in s'.w.tree ensures CoveredAt(s', p) {
      if p != o {
        assert CoveredAt(s, p);
        StillCovered(s, s', p);
      }
    }
  }

  lemma UnsubscribeKeepsCover(s: State, o: nat)
    requires Inv(s) && Enabled(s, UserUnsubscribe(o))
    ensures Covered(Next(s, UserUnsubscribe(o)))
  {
    var s' := Next(s, UserUnsubscribe(o));
    forall p | p in s'.w.tree ensures CoveredAt(s', p) {
      assert CoveredAt(s, p);
      WithoutMembers(s.w.waiting, s.w.tree[o]);
      assert s.w.tree[o] != s.w.tree[p];
      StillCovered(s, s', p);
    }
  }

  lemma PopKeepsCover(s: State, o: nat)
    requires Inv(s) && s.pc.Popping? && s.w.waiting != [] && o in s.w.tree
    ensures CoveredAt(Advanced(s), o)
  {
    assert CoveredAt(s, o);
    assert s.w.waiting == [s.w.waiting[0]] + s.w.waiting[1..];
    StillCovered(s, Advanced(s), o);
  }

  lemma LookKeepsCover(s: State, o: nat)
    requires Inv(s) && (s.pc.Selected? || s.pc.InCallback?) && o in s.w.tree
    ensures CoveredAt(Advanced(s), o)
  {
    assert CoveredAt(s, o);
    StillCovered(s, Advanced(s), o);
  }

  lemma SettleKeepsCover(s: State, o: nat)
    requires Inv(s) && s.pc.Deciding? && o in s.w.tree
    ensures CoveredAt(Advanced(s), o)
  {
    assert CoveredAt(s, o);
    assert IsOwned(s.w, s.w.tree[o]);
    StillCovered(s, Advanced(s), o);
  }

  lemma AdvanceKeepsTree(w: Loop, pc: Control)
    ensures AdvancedLoop(w, pc).tree == w.tree
  {
  }

  lemma AdvanceKeepsCover(s: State)
    requires Inv(s) && Enabled(s, Advance)
    ensures Covered(Advanced(s))
  {
    var s' := Advanced(s);
    AdvanceKeepsTree(s.w, s.pc);
    forall o | o in s'.w.tree ensures CoveredAt(s', o) {
      if s.pc.Popping? && s.w.waiting != [] {
        PopKeepsCover(s, o);
      } else if s.pc.Selected? || s.pc.InCallback? {
        LookKeepsCover(s, o);
      } else if s.pc.Deciding? {
        SettleKeepsCover(s, o);
      } else {
        RestKeepsCover(s, o);
      }
    }
  }

  lemma RestKeepsCover(s: State, o: nat)
    requires Inv(s) && Enabled(s, Advance) && !(s.pc.Popping? && s.w.waiting != []) && Held(s.pc) == None && o in s.w.tree
    ensures AdvancedLoop(s.w, s.pc).tree == s.w.tree && CoveredAt(Advanced(s), o)
  {
    AdvanceTouchesNoStructure(s);
    assert CoveredAt(s, o);
    StillCovered(s, Advanced(s), o);
  }

  lemma StepKeepsCover(s: State, step: Step)
    requires Inv(s) && Enabled(s, step)
    ensures Covered(Next(s, step))
  {
    match step
    case Put(_) => ChangeKeepsCover(s, step);
    case Get(_) => ChangeKeepsCover(s, step);
    case Reset(_) => ChangeKeepsCover(s, step);
    case Finish(o, d) => FinishKeepsCover(s, o, d);
    case UserSubscribe(o, d, edge) => SubscribeKeepsCover(s, o, d, edge);
    case UserUnsubscribe(o) => UnsubscribeKeepsCover(s, o);
    case Advance => AdvanceKeepsCover(s);
    case _ => OtherKeepsCover(s, step);
  }

  lemma OtherKeepsCover(s: State, step: Step)
    requires Inv(s) && Enabled(s, step)
    requires step.RequestStop? || step.RequestTimer? || step.RequestThread? || step.UserPend? || step.Timeout?
             || step.ForeignSubscribe? || step.ForeignUnsubscribe?
    ensures Covered(Next(s, step))
  {
    var s' := Next(s, step);
    forall o | o in s'.w.tree ensures CoveredAt(s', o) {
      assert CoveredAt(s, o);
      StillCovered(s, s', o);
    }
  }

  lemma StepKeeps(s: State, step: Step)
    requires Inv(s) && Enabled(s, step)
    ensures Inv(Next(s, step))
  {
    StepKeepsStructure(s, step);
    StepKeepsSignals(s, step);
    StepKeepsCover(s, step);
  }

  // ---------------------------------------------------------------- runs

  /** furi_event_loop_alloc: nothing subscribed yet, and no link slot of this loop in any queue. */
  ghost predicate Initial(s: State) {
    && s.pc == Stopped && s.notifiers == multiset{}
    && s.w == Loop(map[], 0, multiset{}, map[], s.w.queues, [], None, [], {}, false, {})
    && forall o, d :: o in s.w.queues ==> !s.w.queues[o].Link(d).Own?
  }

  ghost predicate Reaches(s: State, steps: seq<Step>, s': State)
    decreases |steps|
  {
    if steps == [] then s == s' else Enabled(s, steps[0]) && Reaches(Next(s, steps[0]), steps[1..], s')
  }

  lemma InitialInv(s: State)
    requires Initial(s)
    ensures Inv(s)
  {
  }

  lemma {:induction false} RunKeeps(s: State, steps: seq<Step>, s': State)
    requires Inv(s) && Reaches(s, steps, s')
    ensures Inv(s')
    decreases |steps|
  {
    if steps != [] {
      StepKeeps(s, steps[0]);
      RunKeeps(Next(s, steps[0]), steps[1..], s');
    }
  }

  /** Object o has a level subscription, and what it waits for is there: a message in the queue for In, a free
      place for Out. */
  ghost predicate Wanted(w: Loop, o: nat) {
    && o in w.tree && w.tree[o] in w.items && o in w.queues && w.items[w.tree[o]].obj == o && !w.items[w.tree[o]].edge
    && if w.items[w.tree[o]].direction == In then w.queues[o].count >= 1 else w.queues[o].count < w.queues[o].capacity
  }

  /** Level-triggered delivery: whenever the loop waits, an object whose subscribed level is high has
      its item in the waiting list and the Event flag up (or dropped by a stop and not raised since),
      or the call that made the level high has yet to notify. */
  lemma DeliveryIsNotLost(s0: State, steps: seq<Step>, s: State, o: nat)
    requires Initial(s0) && Reaches(s0, steps, s) && s.pc.Waiting?
    requires Wanted(s.w, o)
    ensures s.w.tree[o] in s.w.items
    ensures (o, s.w.items[s.w.tree[o]].direction) in s.notifiers
            || (s.w.tree[o] in s.w.waiting && EventFlag in s.w.flags + s.w.dropped)
  {
    InitialInv(s0);
    RunKeeps(s0, steps, s);
    assert CoveredAt(s, o);
  }

  /** In every reachable state: an object is in the tree exactly when one of its slots is this loop's,
      and that slot holds the object's live item. */
  lemma SubscriptionsAgree(s0: State, steps: seq<Step>, s: State, o: nat)
    requires Initial(s0) && Reaches(s0, steps, s)
    ensures o in s.w.tree <==> o in s.w.queues && (s.w.queues[o].itemIn.Own? || s.w.queues[o].itemOut.Own?)
    ensures o in s.w.tree ==>
              && IsOwned(s.w, s.w.tree[o]) && s.w.items[s.w.tree[o]].obj == o
              && s.w.queues[o].Link(s.w.items[s.w.tree[o]].direction) == Own(s.w.tree[o])
    ensures o in s.w.tree ==> !(s.w.queues[o].itemIn.Own? && s.w.queues[o].itemOut.Own?)
    ensures Unsubscribe(s.w, o).Some? <==> o in s.w.tree
    ensures Distinct(s.w.waiting) && forall a :: a in s.w.waiting ==> InTree(s.w, a)
  {
    InitialInv(s0);
    RunKeeps(s0, steps, s);
    if o in s.w.queues {
      var q := s.w.queues[o];
      assert q.itemIn == q.Link(In) && q.itemOut == q.Link(Out);
    }
    UnsubscribeChecksHold(s.w, Held(s.pc), o);
  }

  /** The furi_crash at the end of the flag chain is never reached. */
  lemma NeverCrashes(s0: State, steps: seq<Step>, s: State)
    requires Initial(s0) && Reaches(s0, steps, s)
    ensures !s.pc.Crashed? && (s.pc.Waiting? && s.w.notified ==> Branch(s.w.flags).Some?)
  {
    InitialInv(s0);
    RunKeeps(s0, steps, s);
    SomeBranch(s.w.flags);
  }

  /** Whoever waits for service has the Event flag up, or the loop is in an Event pass. */
  predicate Flagged(s: State) {
    s.w.waiting != [] ==> EventFlag in s.w.flags || s.pc.InEventPass()
  }

  /** Whenever the run serves a stop, the waiting list is empty. */
  ghost predicate StopsClean(s: State, steps: seq<Step>)
    decreases |steps|
  {
    steps == [] ||
    (Enabled(s, steps[0])
     && (Takes(s, steps[0]) && StopFlag in s.w.flags ==> s.w.waiting == [])
     && StopsClean(Next(s, steps[0]), steps[1..]))
  }

  lemma StepKeepsFlagged(s: State, step: Step)
    requires Flagged(s) && Enabled(s, step) && (Takes(s, step) && StopFlag in s.w.flags ==> s.w.waiting == [])
    ensures Flagged(Next(s, step))
  {
    if step.Advance? {
      AdvanceKeepsFlagged(s);
    } else if step.UserUnsubscribe? {
      WithoutMembers(s.w.waiting, s.w.tree[step.obj]);
    }
  }

  lemma AdvanceKeepsFlagged(s: State)
    requires Flagged(s) && (s.pc.Waiting? && StopFlag in s.w.flags ==> s.w.waiting == [])
    ensures Flagged(Advanced(s))
  {
    if s.pc.Waiting? {
      assert Branch(s.w.flags) == Some(EventFlag) || s.w.waiting == [];
    }
  }

  lemma {:induction false} RunKeepsFlagged(s: State, steps: seq<Step>, s': State)
    requires Flagged(s) && Reaches(s, steps, s') && StopsClean(s, steps)
    ensures Flagged(s')
    decreases |steps|
  {
    if steps != [] {
      StepKeepsFlagged(s, steps[0]);
      RunKeepsFlagged(Next(s, steps[0]), steps[1..], s');
    }
  }

  /** The same without history: in a run that serves stops only while nothing waits for service, a high
      level has its item in the waiting list and the Event flag up, or the call that made it high has
      yet to notify; and the loop then takes an Event pass, or a stop, next. */
  lemma DeliveryWithCleanStops(s0: State, steps: seq<Step>, s: State, o: nat)
    requires Initial(s0) && Reaches(s0, steps, s) && StopsClean(s0, steps) && s.pc.Waiting?
    requires Wanted(s.w, o)
    ensures s.w.tree[o] in s.w.items
    ensures (o, s.w.items[s.w.tree[o]].direction) in s.notifiers
            || (s.w.tree[o] in s.w.waiting && EventFlag in s.w.flags
                && (Branch(s.w.flags) == Some(EventFlag) || Branch(s.w.flags) == Some(StopFlag)))
  {
    RunKeepsFlagged(s0, steps, s);
    DeliveryIsNotLost(s0, steps, s, o);
  }

  /** Serving a stop and running the loop again leaves it asleep on a waiting item if and only if the
      waiting list is not empty when the stop is served. */
  lemma StopDropsExactly(s: State)
    requires s.pc.Waiting? && StopFlag in s.w.flags
    ensures var again := Advanced(Advanced(s));
            && again.pc.Waiting? && !again.w.notified
            && (!Flagged(again) <==> s.w.waiting != [])
  {
  }

  /** A loop that waits with a non-empty waiting list is woken for it, unless a stop dropped the flag. */
  lemma WaitingIsWoken(s: State)
    requires Inv(s) && s.pc.Waiting? && s.w.waiting != []
    ensures EventFlag in s.w.flags <==> EventFlag !in s.w.dropped
    ensures EventFlag !in s.w.dropped ==> Branch(s.w.flags) == Some(StopFlag) || Branch(s.w.flags) == Some(EventFlag)
  {
  }

  /** A stop may drop the Event flag of an item that is already waiting.  When the same loop is run
      again it sleeps although the level is high: nobody is left to notify. */
  lemma RestartMayStall(s: State) returns (steps: seq<Step>, s': State)
    requires Initial(s) && s.w.queues == map[7 := MessageQueue(0, 1, Empty, Empty)]
    ensures Reaches(s, steps, s') && s'.pc.Waiting? && !s'.w.notified && s'.notifiers == multiset{}
    ensures s'.w.tree == map[7 := 0] && s'.w.waiting == [0] && Wanted(s'.w, 7)
    ensures EventFlag in s'.w.dropped
  {
    var s1 := Next(s, UserSubscribe(7, In, false));
    assert s1 == State(OneQueue(0, [], {}), Stopped, multiset{});
    var rest;
    rest, s' := NotifyAndRestart(s1);
    ThenReaches(s, UserSubscribe(7, In, false), rest, s');
    steps := [UserSubscribe(7, In, false)] + rest;
  }

  function OneQueue(count: nat, waiting: seq<nat>, flags: set<Flag>): Loop {
    Loop(map[0 := Item(true, 7, In, false)], 1, multiset{}, map[7 := 0], map[7 := MessageQueue(count, 1, Own(0), Empty)],
         waiting, None, [], flags, flags != {}, {})
  }

  lemma NotifyAndRestart(s: State) returns (steps: seq<Step>, s': State)
    requires s == State(OneQueue(0, [], {}), Stopped, multiset{})
    ensures Reaches(s, steps, s') && s'.pc.Waiting? && !s'.w.notified && s'.notifiers == multiset{}
    ensures s'.w.tree == map[7 := 0] && s'.w.waiting == [0] && Wanted(s'.w, 7)
    ensures EventFlag in s'.w.dropped
  {
    var s1, s2 := Next(s, Put(7)), State(OneQueue(1, [0], {EventFlag}), Stopped, multiset{});
    assert s1 == State(OneQueue(1, [], {}), Stopped, multiset{(7, In)});
    assert Next(s1, Finish(7, In)) == s2;
    var rest;
    rest, s' := StopAndRestart(s2);
    ThenReaches(s1, Finish(7, In), rest, s');
    ThenReaches(s, Put(7), [Finish(7, In)] + rest, s');
    steps := [Put(7)] + ([Finish(7, In)] + rest);
  }

  lemma StopAndRestart(s: State) returns (steps: seq<Step>, s': State)
    requires s.pc == Stopped && s.w.flags == {EventFlag}
    ensures Reaches(s, steps, s') && s'.pc.Waiting? && !s'.w.notified && s'.notifiers == s.notifiers
    ensures s'.w.tree == s.w.tree && s'.w.waiting == s.w.waiting && s'.w.queues == s.w.queues && s'.w.items == s.w.items
    ensures EventFlag in s'.w.dropped
  {
    var s1 := Next(s, RequestStop);
    var s2 := Next(s1, Advance);
    assert s2.w.flags == {EventFlag, StopFlag};
    var s3 := Next(s2, Advance);
    assert s3.pc == Stopped;
    s' := Next(s3, Advance);
    assert Reaches(s', [], s');
    ThenReaches(s3, Advance, [], s');
    ThenReaches(s2, Advance, [Advance] + [], s');
    ThenReaches(s1, Advance, [Advance] + ([Advance] + []), s');
    ThenReaches(s, RequestStop, [Advance] + ([Advance] + ([Advance] + [])), s');
    steps := [RequestStop] + ([Advance] + ([Advance] + ([Advance] + [])));
  }

  lemma ThenReaches(s: State, step: Step, rest: seq<Step>, s': State)
    requires Enabled(s, step) && Reaches(Next(s, step), rest, s')
    ensures Reaches(s, [step] + rest, s')
  {
    assert ([step] + rest)[1..] == rest;
  }

  // ---------------------------------------------------------------- flags

  /** Raised and not yet looked at, or taken together with another flag and to be put back. */
  function Outstanding(s: State): set<Flag> { s.w.flags + s.pc.Saved() }

  predicate Takes(s: State, step: Step) { step.Advance? && s.pc.Waiting? }

  /** Exactly when a raised flag goes away: when it is the one served, when a stop is served, and for
      the thread flag also when the pending callbacks are. */
  lemma FlagGoesExactly(s: State, step: Step, f: Flag)
    requires Inv(s) && Enabled(s, step) && f in Outstanding(s)
    ensures f !in Outstanding(Next(s, step)) <==>
            Takes(s, step) && (Branch(s.w.flags) == Some(f) || Branch(s.w.flags) == Some(StopFlag)
                               || (Branch(s.w.flags) == Some(PendingFlag) && f == ThreadFlag))
  {
    if step.Advance? { AdvanceFlags(s, f); }
  }

  lemma AdvanceFlags(s: State, f: Flag)
    requires Signalled(s) && Enabled(s, Advance) && f in Outstanding(s)
    ensures f !in Outstanding(Advanced(s)) <==>
            s.pc.Waiting? && (Branch(s.w.flags) == Some(f) || Branch(s.w.flags) == Some(StopFlag)
                              || (Branch(s.w.flags) == Some(PendingFlag) && f == ThreadFlag))
  {
    SomeBranch(s.w.flags);
  }

  /** No pass of the run takes flag f out for service or serves a stop. */
  ghost predicate Undisturbed(s: State, steps: seq<Step>, f: Flag)
    decreases |steps|
  {
    steps == [] ||
    (Enabled(s, steps[0])
     && !(Takes(s, steps[0]) && (Branch(s.w.flags) == Some(f) || Branch(s.w.flags) == Some(StopFlag)))
     && Undisturbed(Next(s, steps[0]), steps[1..], f))
  }

  /** Event, Timer, Pending and Stop are never lost: once raised, they stay until served, except by a stop. */
  lemma {:induction false} FlagStaysUntilServed(s: State, steps: seq<Step>, s': State, f: Flag)
    requires Inv(s) && Reaches(s, steps, s') && Undisturbed(s, steps, f) && f != ThreadFlag
    requires f in Outstanding(s)
    ensures f in Outstanding(s')
    decreases |steps|
  {
    if steps != [] {
      FlagGoesExactly(s, steps[0], f);
      StepKeeps(s, steps[0]);
      FlagStaysUntilServed(Next(s, steps[0]), steps[1..], s', f);
    }
  }

  lemma ThenUndisturbed(s: State, step: Step, rest: seq<Step>, f: Flag)
    requires Enabled(s, step) && Undisturbed(Next(s, step), rest, f)
    requires Takes(s, step) ==> Branch(s.w.flags) != Some(f) && Branch(s.w.flags) != Some(StopFlag)
    ensures Undisturbed(s, [step] + rest, f)
  {
    assert ([step] + rest)[1..] == rest;
  }

  /** The Pending pass takes all flags and restores none. */
  lemma PendingPassDrops(s: State)
    requires s.pc == Waiting && s.w.notified && s.w.flags == {PendingFlag, ThreadFlag}
    ensures Enabled(s, Advance) && Branch(s.w.flags) == Some(PendingFlag)
    ensures ThreadFlag !in Outstanding(Next(s, Advance))
  {
  }

  /** A callback is pended, the thread flag raised and the loop started. */
  lemma PendAndRequest(s: State) returns (s1: State, s2: State, s3: State)
    requires Initial(s)
    ensures Enabled(s, UserPend(0)) && s1 == Next(s, UserPend(0)) && !s.pc.Waiting?
    ensures Enabled(s1, RequestThread) && s2 == Next(s1, RequestThread) && !s1.pc.Waiting?
    ensures Enabled(s2, Advance) && s3 == Next(s2, Advance) && !s2.pc.Waiting?
    ensures s3.pc == Waiting && s3.w.notified && s3.w.flags == {PendingFlag, ThreadFlag}
  {
    s1 := Next(s, UserPend(0));
    s2 := Next(s1, RequestThread);
    s3 := Next(s2, Advance);
  }

  /** A run that raises the thread flag and never serves it, in which it is gone all the same: it was
      taken together with the Pending flag, whose branch restores nothing. */
  lemma ThreadFlagIsLost(s: State) returns (steps: seq<Step>, s': State)
    requires Initial(s)
    ensures Reaches(s, steps, s') && RequestThread in steps && Undisturbed(s, steps, ThreadFlag)
    ensures ThreadFlag !in Outstanding(s')
  {
    var s1, s2, s3 := PendAndRequest(s);
    PendingPassDrops(s3);
    s' := Next(s3, Advance);
    assert Reaches(s', [], s') && Undisturbed(s', [], ThreadFlag);
    hide Next, Enabled, Branch, Outstanding, Reaches, Undisturbed;
    steps := [];
    ThenReaches(s3, Advance, steps, s');
    ThenUndisturbed(s3, Advance, steps, ThreadFlag);
    steps := [Advance] + steps;
    ThenReaches(s2, Advance, steps, s');
    ThenUndisturbed(s2, Advance, steps, ThreadFlag);
    steps := [Advance] + steps;
    ThenReaches(s1, RequestThread, steps, s');
    ThenUndisturbed(s1, RequestThread, steps, ThreadFlag);
    steps := [RequestThread] + steps;
    ThenReaches(s, UserPend(0), steps, s');
    ThenUndisturbed(s, UserPend(0), steps, ThreadFlag);
    steps := [UserPend(0)] + steps;
    assert steps[1] == RequestThread;
  }

  // ---------------------------------------------------------------- turns

  predicate Pops(s: State, step: Step) { step.Advance? && s.pc.Popping? && s.w.waiting != [] }

  /** How many Event passes of the run take an item off the list. */
  ghost function Passes(s: State, steps: seq<Step>): nat
    decreases |steps|
  {
    if steps == [] || !Enabled(s, steps[0]) then 0
    else (if Pops(s, steps[0]) then 1 else 0) + Passes(Next(s, steps[0]), steps[1..])
  }

  predicate Drops(s: State, step: Step, a: nat) {
    step.UserUnsubscribe? && step.obj in s.w.tree && s.w.tree[step.obj] == a
  }

  /** No step of the run unsubscribes an item in A. */
  ghost predicate Keeps(s: State, steps: seq<Step>, A: set<nat>)
    decreases |steps|
  {
    steps == [] ||
    (Enabled(s, steps[0]) && (forall a :: a in A ==> !Drops(s, steps[0], a)) && Keeps(Next(s, steps[0]), steps[1..], A))
  }

  lemma {:induction false} WithoutIndex(s: seq<nat>, x: nat, k: nat) returns (j: nat)
    requires k < |s| && s[k] != x
    ensures j <= k && j < |Without(s, x)| && Without(s, x)[j] == s[k]
    ensures x !in s[..k] ==> j == k
  {
    if k == 0 {
      j := 0;
    } else {
      j := WithoutIndex(s[1..], x, k - 1);
      assert s[..k] == [s[0]] + s[1..][..k - 1];
      if s[0] != x { j := j + 1; }
    }
  }

  lemma TurnStep(s: State, step: Step, k: nat) returns (j: nat)
    requires Enabled(s, step) && k < |s.w.waiting| && !Drops(s, step, s.w.waiting[k])
    requires !(Pops(s, step) && k == 0)
    ensures var w' := Next(s, step).w;
            j + (if Pops(s, step) then 1 else 0) <= k && j < |w'.waiting| && w'.waiting[j] == s.w.waiting[k]
    ensures (forall i :: 0 <= i < k ==> !Drops(s, step, s.w.waiting[i])) ==> j + (if Pops(s, step) then 1 else 0) == k
  {
    if Pops(s, step) {
      j := k - 1;
    } else if step.UserUnsubscribe? {
      j := WithoutIndex(s.w.waiting, s.w.tree[step.obj], k);
      if forall i :: 0 <= i < k ==> !Drops(s, step, s.w.waiting[i]) {
        assert s.w.tree[step.obj] !in s.w.waiting[..k];
      }
    } else {
      j := k;
      if step.Advance? { AdvanceAppends(s); } else { OtherStepsAppend(s.w, step); }
    }
  }

  lemma AdvanceAppends(s: State)
    requires !(s.pc.Popping? && s.w.waiting != [])
    ensures s.w.waiting <= Advanced(s).w.waiting
  {
    if !s.pc.Deciding? { AdvanceTouchesNoLists(s); }
  }

  lemma OtherStepsAppend(w: Loop, step: Step)
    requires !step.UserUnsubscribe?
    ensures w.waiting <= ChangedLoop(w, step).waiting
  {
  }

  // ---------------------------------------------------------------- what other calls do

  /** Who may act when: user code outside the loop and in callbacks of any kind; the loop's thread unless it waits with
      nothing notified, when its wait may time out instead; anybody else at any time. */
  lemma WhoMayAct(s: State, callback: nat, o: nat, d: Direction, edge: bool)
    ensures var user := s.pc == Stopped || s.pc.InCallback? || s.pc == InPending(true) || s.pc == InOther;
            && (Enabled(s, UserPend(callback)) <==> user)
            && (Enabled(s, UserSubscribe(o, d, edge)) <==> user && Subscribe(s.w, o, d, edge).Some?)
            && (Enabled(s, UserUnsubscribe(o)) <==> user && Unsubscribe(s.w, o).Some?)
    ensures Enabled(s, Advance) <==> s.pc != Crashed && (s.pc == Waiting ==> s.w.notified)
    ensures Enabled(s, Timeout) <==> s.pc == Waiting && !s.w.notified
    ensures Enabled(s, RequestStop) && Enabled(s, RequestTimer) && Enabled(s, RequestThread)
    ensures Enabled(s, Finish(o, d)) <==> (o, d) in s.notifiers
    ensures o in s.w.queues ==>
              var slot := if d == In then s.w.queues[o].itemIn else s.w.queues[o].itemOut;
              && (Enabled(s, ForeignSubscribe(o, d)) <==> slot.Empty?)
              && (Enabled(s, ForeignUnsubscribe(o, d)) <==> slot.Foreign?)
  {
    hide Subscribe, Unsubscribe;
  }

  /** A put makes one message more and owes the In slot a notification, a get or a reset the Out slot. */
  lemma QueueCallsNotify(s: State, o: nat)
    requires o in s.w.queues
    ensures Enabled(s, Put(o)) <==> s.w.queues[o].count < s.w.queues[o].capacity
    ensures Enabled(s, Get(o)) <==> s.w.queues[o].count > 0
    ensures Enabled(s, Put(o)) ==>
              var s' := Next(s, Put(o));
              && s'.w == s.w.(queues := s.w.queues[o := s.w.queues[o].(count := s.w.queues[o].count + 1)])
              && s'.notifiers == s.notifiers + multiset{(o, In)} && s'.pc == s.pc
    ensures Enabled(s, Get(o)) ==>
              var s' := Next(s, Get(o));
              && s'.w == s.w.(queues := s.w.queues[o := s.w.queues[o].(count := s.w.queues[o].count - 1)])
              && s'.notifiers == s.notifiers + multiset{(o, Out)} && s'.pc == s.pc
    ensures Enabled(s, Reset(o)) &&
            var s' := Next(s, Reset(o));
            && s'.w == s.w.(queues := s.w.queues[o := s.w.queues[o].(count := 0)])
            && s'.notifiers == s.notifiers + multiset{(o, Out)} && s'.pc == s.pc
  {
  }

  /** A notification that finds a subscription of this loop in its slot, edge or level, has its item listed, behind
      all others and only once, and the Event flag raised; one that finds none changes no list and no flag. */
  lemma NotificationLists(s: State, o: nat, d: Direction)
    requires Enabled(s, Finish(o, d)) && o in s.w.queues
    ensures var s', slot := Next(s, Finish(o, d)), if d == In then s.w.queues[o].itemIn else s.w.queues[o].itemOut;
            && s'.notifiers == s.notifiers - multiset{(o, d)}
            && (slot.Own? ==>
                  && s'.w.waiting == (if slot.item in s.w.waiting then s.w.waiting else s.w.waiting + [slot.item])
                  && s'.w.flags == s.w.flags + {EventFlag} && s'.w.notified)
            && (!slot.Own? ==> s'.w == s.w)
  {
  }

  /** A subscription takes the slot of its direction, and its item is listed at once exactly when it is a level
      subscription and what it waits for is there. */
  lemma SubscribeLists(w: Loop, o: nat, d: Direction, edge: bool)
    ensures var r := Subscribe(w, o, d, edge);
            r.Some? <==>
            o in w.queues && o !in w.tree && (if d == In then w.queues[o].itemIn else w.queues[o].itemOut) == Empty
    ensures var r := Subscribe(w, o, d, edge);
            r.Some? ==>
              var w', q, there := r.value, w.queues[o],
                                  if d == In then w.queues[o].count >= 1 else w.queues[o].count < w.queues[o].capacity;
              && w'.tree == w.tree[o := w.next] && w'.items == w.items[w.next := Item(true, o, d, edge)]
              && w'.queues == w.queues[o := if d == In then q.(itemIn := Own(w.next)) else q.(itemOut := Own(w.next))]
              && (!edge && there ==> w.next in w'.waiting && EventFlag in w'.flags && w'.notified)
              && (edge || !there ==> w'.waiting == w.waiting && w'.flags == w.flags && w'.notified == w.notified)
  {
  }

  /** What the flags taken in one go lead to: a stop alone, else an Event pass, else the timer queue, else the pending
      callbacks, else the thread-flag callback; the flags of the first two passes but their own are kept to be put
      back. */
  lemma FlagsAreServed(s: State)
    requires s.pc.Waiting? && Enabled(s, Advance)
    ensures var s', flags := Advanced(s), s.w.flags;
            && s'.w.flags == {} && !s'.w.notified && s'.w.waiting == s.w.waiting && s'.w.callbacks == s.w.callbacks
            && (StopFlag in flags ==> s'.pc == Stopped)
            && (StopFlag !in flags && EventFlag in flags ==> s'.pc == Popping(flags - {EventFlag}))
            && (flags !! {StopFlag, EventFlag} && TimerFlag in flags ==> s'.pc == InTimers(flags - {TimerFlag}))
            && (flags !! {StopFlag, EventFlag, TimerFlag} && PendingFlag in flags ==> s'.pc == InPending(false))
            && (flags == {ThreadFlag} ==> s'.pc == InOther)
  {
  }

  /** The pass over the pending callbacks calls the oldest, takes it off when it is done, and goes on until none is
      left. */
  lemma PendingAreCalled(s: State)
    requires s.pc.InPending?
    ensures var s' := Advanced(s);
            && (s.w.callbacks == [] ==> s'.pc == Waiting && s'.w == s.w)
            && (s.w.callbacks != [] && !s.pc.busy ==> s'.pc == InPending(true) && s'.w == s.w)
            && (s.w.callbacks != [] && s.pc.busy ==>
                  s'.pc == InPending(false) && s'.w == s.w.(callbacks := s.w.callbacks[1..]))
  {
  }

  // ---------------------------------------------------------------- callbacks

  /** The level of the object that item a waits for: messages to get, or room to put. */
  ghost predicate LevelIsHigh(w: Loop, a: nat)
    requires a in w.items && w.items[a].obj in w.queues
  {
    var q := w.queues[w.items[a].obj];
    if w.items[a].direction.In? then q.count > 0 else q.count < q.capacity
  }

  ghost predicate Alive(w: Loop, a: nat) { InTree(w, a) && w.items[a].obj in w.queues }

  /** When an item taken off the waiting list is looked at, its callback begins exactly if it is an edge item or
      its level is high; if not, the pass ends for it. */
  lemma CallbackBegins(s: State)
    requires s.pc.Selected? && Alive(s.w, s.pc.item)
    ensures var a, saved := s.pc.item, s.pc.saved;
            Advanced(s).pc == if s.w.items[a].edge || LevelIsHigh(s.w, a) then InCallback(a, saved)
                              else Deciding(a, Complete, saved)
  {
  }

  /** No callback begins in any other way. */
  lemma CallbackBeginsOnlySo(s: State, step: Step)
    requires Enabled(s, step) && Next(s, step).pc.InCallback? && Next(s, step).pc != s.pc
    ensures step.Advance? && s.pc.Selected? && Next(s, step).pc == InCallback(s.pc.item, s.pc.saved)
  {
  }

  /** After the callback of a level item that is still subscribed, and whose level is still high, it is listed again;
      of an edge item, or when the level has gone low, it is not. */
  lemma CallbackEnds(s: State)
    requires s.pc.InCallback? && Alive(s.w, s.pc.item)
    ensures var a := s.pc.item;
            Advanced(s).pc ==
            Deciding(a, if !s.w.items[a].edge && LevelIsHigh(s.w, a) then Incomplete else Complete, s.pc.saved)
  {
  }

  ghost predicate Looks(s: State, step: Step) { step.Advance? && s.pc.Selected? }

  /** The step begins the callback of a, or finds its level low. */
  ghost predicate Attends(s: State, step: Step, a: nat)
    requires Enabled(s, step)
  {
    && Looks(s, step) && s.pc.item == a
    && (Next(s, step).pc == InCallback(a, s.pc.saved)
        || (Alive(s.w, a) && !s.w.items[a].edge && !LevelIsHigh(s.w, a)))
  }

  ghost predicate Serves(s: State, steps: seq<Step>, a: nat)
    decreases |steps|
  {
    steps != [] && Enabled(s, steps[0]) && (Attends(s, steps[0], a) || Serves(Next(s, steps[0]), steps[1..], a))
  }

  /** How many items of the run are looked at. */
  ghost function Looked(s: State, steps: seq<Step>): nat
    decreases |steps|
  {
    if steps == [] || !Enabled(s, steps[0]) then 0
    else (if Looks(s, steps[0]) then 1 else 0) + Looked(Next(s, steps[0]), steps[1..])
  }

  /** Nobody but the loop's thread removes an item it has selected. */
  lemma SelectedStays(s: State, step: Step)
    requires Enabled(s, step) && !step.Advance? && s.pc.Selected? && Alive(s.w, s.pc.item)
    ensures Next(s, step).pc == s.pc && Alive(Next(s, step).w, s.pc.item)
  {
  }

  lemma {:induction false} SelectedIsServed(s: State, steps: seq<Step>, s': State)
    requires Reaches(s, steps, s') && s.pc.Selected? && Alive(s.w, s.pc.item)
    ensures Serves(s, steps, s.pc.item) || Looked(s, steps) == 0
    decreases |steps|
  {
    if steps != [] {
      if steps[0].Advance? {
        CallbackBegins(s);
      } else {
        SelectedStays(s, steps[0]);
        hide Enabled, Next, Alive, Attends;
        SelectedIsServed(Next(s, steps[0]), steps[1..], s');
      }
    }
  }

  /** No starvation: unless it is unsubscribed, the item at position k has its callback begun, or its level found
      low, before more than k other items of the list are looked at; one may already be selected. */
  lemma {:induction false} ServedInTurn(s: State, steps: seq<Step>, s': State, k: nat)
    requires Inv(s) && Reaches(s, steps, s') && k < |s.w.waiting| && Keeps(s, steps, {s.w.waiting[k]})
    ensures Serves(s, steps, s.w.waiting[k]) || Looked(s, steps) <= k + if s.pc.Selected? then 1 else 0
    decreases |steps|
  {
    if steps != [] {
      var a, step, next := s.w.waiting[k], steps[0], Next(s, steps[0]);
      assert a in {a};
      StepKeeps(s, step);
      if Pops(s, step) && k == 0 {
        PopSelects(s);
        hide Enabled, Next, Inv, Alive, Attends, Keeps;
        SelectedIsServed(next, steps[1..], s');
      } else {
        SelectsByPop(s, step);
        var j := TurnStep(s, step, k);
        hide Enabled, Next, Inv, Alive, Attends;
        ServedInTurn(next, steps[1..], s', j);
      }
    }
  }

  lemma PopSelects(s: State)
    requires Inv(s) && Pops(s, Advance)
    ensures Advanced(s).pc == Selected(s.w.waiting[0], s.pc.saved) && Alive(Advanced(s).w, s.w.waiting[0])
  {
    assert s.w.waiting[0] in s.w.waiting;
  }

  /** An item is selected by a pop, and looked at next. */
  lemma SelectsByPop(s: State, step: Step)
    requires Enabled(s, step)
    ensures Next(s, step).pc.Selected? <==> Pops(s, step) || (s.pc.Selected? && !step.Advance?)
  {
  }

  lemma TurnWithin(s: State, step: Step, k: nat, ahead: set<nat>) returns (j: nat)
    requires Enabled(s, step) && k < |s.w.waiting| && !(Pops(s, step) && k == 0)
    requires forall i :: 0 <= i <= k ==> s.w.waiting[i] in ahead
    requires forall a :: a in ahead ==> !Drops(s, step, a)
    ensures j == k - (if Pops(s, step) then 1 else 0)
    ensures var w' := Next(s, step).w;
            j < |w'.waiting| && w'.waiting[j] == s.w.waiting[k] && forall i :: 0 <= i <= j ==> w'.waiting[i] in ahead
  {
    hide Enabled, Next, Pops, Drops;
    j := TurnStep(s, step, k);
    var w' := Next(s, step).w;
    forall i | 0 <= i <= j ensures w'.waiting[i] in ahead {
      var from := if Pops(s, step) then i + 1 else i;
      var i' := TurnStep(s, step, from);
      assert w'.waiting[i'] == s.w.waiting[from];
    }
  }

  /** And when nothing ahead of it is unsubscribed, by exactly the (k + 1)-th pass: after k of them it
      is at the head of the list. */
  lemma {:induction false} FirstAfterItsTurn(s: State, steps: seq<Step>, s': State, k: nat, ahead: set<nat>)
    requires Reaches(s, steps, s') && k < |s.w.waiting| && Passes(s, steps) <= k
    requires (forall i :: 0 <= i <= k ==> s.w.waiting[i] in ahead) && Keeps(s, steps, ahead)
    ensures k - Passes(s, steps) < |s'.w.waiting| && s'.w.waiting[k - Passes(s, steps)] == s.w.waiting[k]
    decreases |steps|
  {
    if steps != [] {
      var j := TurnWithin(s, steps[0], k, ahead);
      FirstAfterItsTurn(Next(s, steps[0]), steps[1..], s', j, ahead);
    }
  }

  // ---------------------------------------------------------------- items unsubscribed in their callback

  /** Unsubscribing the running item leaves it allocated, but out of tree, slots and waiting list. */
  lemma UnsubscribedWhileRunning(s: State, o: nat, a: nat)
    requires Inv(s) && s.pc.InCallback? && s.pc.item == a && o in s.w.tree && s.w.tree[o] == a
    ensures Enabled(s, UserUnsubscribe(o))
    ensures var s' := Next(s, UserUnsubscribe(o));
            Inv(s') && Doomed(s', a) && a !in s'.w.waiting && o !in s'.w.tree && s'.pc == s.pc
  {
    StepKeeps(s, UserUnsubscribe(o));
    WithoutMembers(s.w.waiting, a);
  }

  predicate Doomed(s: State, a: nat) {
    a in s.w.items && !s.w.items[a].owned
  }

  lemma DoomedStep(s: State, step: Step, a: nat)
    requires Accounted(s.w, Held(s.pc)) && FreedOnce(s.w) && Enabled(s, step) && Doomed(s, a)
    ensures var s' := Next(s, step);
            if step.Advance? && s.pc.Deciding? then s'.w.freed[a] == 1 && a !in s'.w.items
            else Doomed(s', a) && s'.w.freed[a] == 0
  {
    if step.Advance? {
      assert s.pc.Handles(a);
      if !s.pc.Deciding? { AdvanceTouchesNoLists(s); }
    } else if step.UserUnsubscribe? {
      var item := s.w.tree[step.obj];
      assert item != a;
      assert (s.w.freed + multiset{item})[a] == s.w.freed[a];
    } else {
      OtherStepsFreeNothing(s.w, step);
    }
  }

  lemma OtherStepsFreeNothing(w: Loop, step: Step)
    requires !step.UserUnsubscribe?
    ensures ChangedLoop(w, step).freed == w.freed
    ensures forall a :: a in w.items && a != w.next ==>
              a in ChangedLoop(w, step).items && ChangedLoop(w, step).items[a] == w.items[a]
  {
  }

  lemma FreedGrows(s: State, step: Step, a: nat)
    requires Enabled(s, step)
    ensures Next(s, step).w.freed[a] >= s.w.freed[a]
  {
    if step.UserUnsubscribe? {
      var item := s.w.tree[step.obj];
      assert (s.w.freed + multiset{item})[a] >= s.w.freed[a];
    } else if !step.Advance? {
      OtherStepsFreeNothing(s.w, step);
    }
  }

  lemma FreedStays(s: State, step: Step, a: nat)
    requires Inv(s) && Enabled(s, step) && s.w.freed[a] == 1
    ensures Next(s, step).w.freed[a] == 1
  {
    StepKeeps(s, step);
    FreedGrows(s, step, a);
    assert FreedOnce(Next(s, step).w);
  }

  /** An item unsubscribed inside its own callback is freed exactly once: it stays allocated until the
      callback's pass settles it, and after that no step frees it again. */
  lemma {:induction false} FreedExactlyOnce(s: State, steps: seq<Step>, s': State, a: nat)
    requires Inv(s) && Reaches(s, steps, s') && (Doomed(s, a) || s.w.freed[a] == 1)
    ensures if Doomed(s', a) then s'.w.freed[a] == 0 && s'.pc.Handles(a) else s'.w.freed[a] == 1
    ensures s.w.freed[a] == 1 ==> s'.w.freed[a] == 1
    decreases |steps|
  {
    if steps != [] {
      StepKeeps(s, steps[0]);
      if Doomed(s, a) { DoomedStep(s, steps[0], a); } else { FreedStays(s, steps[0], a); }
      FreedExactlyOnce(Next(s, steps[0]), steps[1..], s', a);
    }
  }

  // ---------------------------------------------------------------- pending callbacks

  function PendedBy(step: Step): seq<nat> { if step.UserPend? then [step.callback] else [] }

  function CompletedBy(s: State, step: Step): seq<nat> {
    if step.Advance? && s.pc == InPending(true) && s.w.callbacks != [] then [s.w.callbacks[0]] else []
  }

  function Pended(steps: seq<Step>): seq<nat> {
    if steps == [] then [] else PendedBy(steps[0]) + Pended(steps[1..])
  }

  /** The pending callbacks that complete during a run. */
  ghost function Completed(s: State, steps: seq<Step>): seq<nat>
    decreases |steps|
  {
    if steps == [] || !Enabled(s, steps[0]) then []
    else CompletedBy(s, steps[0]) + Completed(Next(s, steps[0]), steps[1..])
  }

  /** Pending callbacks run in the order they were pended, each once, none lost. */
  lemma {:induction false} CallbacksInOrder(s: State, steps: seq<Step>, s': State)
    requires Reaches(s, steps, s')
    ensures s.w.callbacks + Pended(steps) == Completed(s, steps) + s'.w.callbacks
    decreases |steps|
  {
    if steps != [] {
      var t := Next(s, steps[0]);
      CallbackStep(s, steps[0]);
      CallbacksInOrder(t, steps[1..], s');
      Chain(s.w.callbacks, PendedBy(steps[0]), Pended(steps[1..]), CompletedBy(s, steps[0]), t.w.callbacks,
            Completed(t, steps[1..]), s'.w.callbacks);
    }
  }

  lemma Chain(a: seq<nat>, p: seq<nat>, ps: seq<nat>, e: seq<nat>, b: seq<nat>, es: seq<nat>, d: seq<nat>)
    requires a + p == e + b && b + ps == es + d
    ensures a + (p + ps) == (e + es) + d
  {
    calc {
      a + (p + ps);
      (a + p) + ps;
      e + (b + ps);
      (e + es) + d;
    }
  }

  lemma CallbackStep(s: State, step: Step)
    requires Enabled(s, step)
    ensures s.w.callbacks + PendedBy(step) == CompletedBy(s, step) + Next(s, step).w.callbacks
  {
    if step.Advance? {
      AdvancedCallbacks(s);
    } else if !step.UserPend? {
      OtherCallbacks(s.w, step);
    }
  }

  lemma AdvancedCallbacks(s: State)
    ensures AdvancedLoop(s.w, s.pc).callbacks ==
            if s.pc == InPending(true) && s.w.callbacks != [] then s.w.callbacks[1..] else s.w.callbacks
  {
  }

  lemma OtherCallbacks(w: Loop, step: Step)
    requires !step.UserPend?
    ensures ChangedLoop(w, step).callbacks == w.callbacks
  {
  }
}

/** The event loop as an object, its methods following the functions of the source. */
module EventLoop {
  import opened EventLoopState
  import EventLoopRuns
  import opened Sequences

  class FuriEventLoop {
    var items: map<nat, Item>
    var next: nat
    var tree: map<nat, nat>
    var queues: map<nat, MessageQueue>
    var waiting_list: seq<nat>
    var current_item: Option<nat>
    var pending_queue: seq<nat>
    var flags: set<Flag>
    var notified: bool
    ghost var freed: multiset<nat>
    ghost var dropped: set<Flag>

    ghost function View(): Loop
      reads this
    {
      Loop(items, next, freed, tree, queues, waiting_list, current_item, pending_queue, flags, notified, dropped)
    }

    /** furi_event_loop_alloc. */
    constructor (queues: map<nat, MessageQueue>)
      ensures View() == Loop(map[], 0, multiset{}, map[], queues, [], None, [], {}, false, {})
    {
      items, next, tree, this.queues, waiting_list := map[], 0, map[], queues, [];
      current_item, pending_queue, flags, notified := None, [], {}, false;
      freed, dropped := multiset{}, {};
    }

    /** furi_event_loop_notify, and the notification that restores flags. */
    method SetFlags(set_: set<Flag>)
      modifies this`flags, this`notified, this`dropped
      ensures View() == Raise(old(View()), set_)
    {
      flags, notified, dropped := flags + set_, true, dropped - set_;
    }

    method PushWaiting(item: nat)
      modifies this`waiting_list
      ensures View() == Enlist(old(View()), item)
    {
      if item !in waiting_list { waiting_list := waiting_list + [item]; }
    }

    method ItemNotify(item: nat)
      modifies this`waiting_list, this`flags, this`notified, this`dropped
      ensures View() == EventLoopState.Notify(old(View()), item)
    {
      PushWaiting(item);
      SetFlags({EventFlag});
    }

    method LinkNotify(obj: nat, d: Direction)
      modifies this`waiting_list, this`flags, this`notified, this`dropped
      ensures View() == EventLoopState.LinkNotify(old(View()), obj, d)
    {
      if obj in queues && queues[obj].Link(d).Own? { ItemNotify(queues[obj].Link(d).item); }
    }

    /** A queue operation of a thread that is not interrupted before it notifies: furi_message_queue_put,
        which notifies the In slot only when the message was stored. */
    method Put(obj: nat) returns (ok: bool)
      requires obj in queues
      modifies this`queues, this`waiting_list, this`flags, this`notified, this`dropped
      ensures ok <==> old(queues)[obj].count < old(queues)[obj].capacity
      ensures View() == if ok then EventLoopState.LinkNotify(Count(old(View()), obj, old(queues)[obj].count + 1), obj, In)
                        else old(View())
    {
      var q := queues[obj];
      ok := q.count < q.capacity;
      if ok {
        queues := queues[obj := q.(count := q.count + 1)];
        LinkNotify(obj, In);
      }
    }

    method Get(obj: nat) returns (ok: bool)
      requires obj in queues
      modifies this`queues, this`waiting_list, this`flags, this`notified, this`dropped
      ensures ok <==> old(queues)[obj].count > 0
      ensures View() == if ok then EventLoopState.LinkNotify(Count(old(View()), obj, old(queues)[obj].count - 1), obj, Out)
                        else old(View())
    {
      var q := queues[obj];
      ok := q.count > 0;
      if ok {
        queues := queues[obj := q.(count := q.count - 1)];
        LinkNotify(obj, Out);
      }
    }

    method ItemFree(item: nat)
      modifies this`items, this`freed
      ensures View() == Free(old(View()), item)
    {
      items := items - {item};
      freed := freed + multiset{item};
    }

    /** furi_event_loop_object_subscribe; false is a failed furi_check. */
    method Subscribe(obj: nat, d: Direction, edge: bool) returns (ok: bool)
      modifies this
      ensures var r := EventLoopState.Subscribe(old(View()), obj, d, edge);
              ok == r.Some? && View() == if ok then r.value else old(View())
    {
      ok := obj in queues && obj !in tree && queues[obj].Link(d).Empty?;
      if ok {
        var item, q := next, queues[obj];
        next := next + 1;
        items := items[item := Item(true, obj, d, edge)];
        tree := tree[obj := item];
        queues := queues[obj := q.SetLink(d, Own(item))];
        ghost var linked := View();
        assert EventLoopState.Subscribe(old(View()), obj, d, edge)
            == Some(if !edge && q.Level(d) then EventLoopState.Notify(linked, item) else linked);
        hide EventLoopState.Subscribe, EventLoopState.Notify, MessageQueue.Level;
        if !edge {
          if q.Level(d) { ItemNotify(item); }
        }
      }
    }

    /** furi_event_loop_unsubscribe; false is a failed furi_check. */
    method Unsubscribe(obj: nat) returns (ok: bool)
      modifies this
      ensures var r := EventLoopState.Unsubscribe(old(View()), obj);
              ok == r.Some? && View() == if ok then r.value else old(View())
    {
      ok := obj in tree && tree[obj] in items && items[tree[obj]].owned && obj in queues
            && queues[obj].Link(items[tree[obj]].direction) == Own(tree[obj]);
      if ok {
        var item := tree[obj];
        var it, q := items[item], queues[obj];
        tree := tree - {obj};
        queues := queues[obj := q.SetLink(it.direction, Empty)];
        waiting_list := Without(waiting_list, item);
        if current_item == Some(item) {
          items := items[item := it.(owned := false)];
        } else {
          ItemFree(item);
        }
      }
    }

    /** furi_event_loop_pend_callback. */
    method PendCallback(callback: nat)
      modifies this`pending_queue, this`flags, this`notified, this`dropped
      ensures View() == Raise(old(View()).(callbacks := old(pending_queue) + [callback]), {PendingFlag})
    {
      pending_queue := pending_queue + [callback];
      SetFlags({PendingFlag});
    }

    /** A call user code makes on the loop's own thread is that user step of the state machine. */
    method UserCall(step: Step) returns (ok: bool)
      requires step.UserSubscribe? || step.UserUnsubscribe? || step.UserPend?
      modifies this
      ensures View() == ChangedLoop(old(View()), step)
      ensures step.UserSubscribe? ==> ok == EventLoopState.Subscribe(old(View()), step.obj, step.direction, step.edge).Some?
      ensures step.UserUnsubscribe? ==> ok == EventLoopState.Unsubscribe(old(View()), step.obj).Some?
    {
      hide EventLoopState.Subscribe, EventLoopState.Unsubscribe, Raise;
      match step {
        case UserSubscribe(obj, d, edge) => ok := Subscribe(obj, d, edge);
        case UserUnsubscribe(obj) => ok := Unsubscribe(obj);
        case UserPend(callback) => PendCallback(callback); ok := true;
      }
    }

    /** furi_event_loop_is_subscribed. */
    method IsSubscribed(obj: nat) returns (result: bool)
      ensures result <==> obj in tree
      ensures EventLoopRuns.Subscribed(View()) && EventLoopRuns.Linked(View()) ==>
                (result <==> obj in queues && (queues[obj].itemIn.Own? || queues[obj].itemOut.Own?))
    {
      result := obj in tree;
      if obj in queues && EventLoopRuns.Linked(View()) {
        assert queues[obj].Link(In).Own? ==> obj in tree;
        assert queues[obj].Link(Out).Own? ==> obj in tree;
      }
    }

    method GetWaitingItem() returns (item: Option<nat>)
      modifies this`waiting_list
      ensures if old(waiting_list) == [] then item == None && View() == old(View())
              else item == Some(old(waiting_list)[0]) && View() == Pop(old(View()))
    {
      item := None;
      if waiting_list != [] {
        item := Some(waiting_list[0]);
        waiting_list := waiting_list[1..];
      }
    }

    method SyncFlags()
      modifies this`flags, this`notified, this`dropped
      ensures View() == if waiting_list == [] then old(View()) else Raise(old(View()), {EventFlag})
    {
      if waiting_list != [] { SetFlags({EventFlag}); }
    }

    method RestoreFlags(saved: set<Flag>)
      modifies this`flags, this`notified, this`dropped
      ensures View() == if saved == {} then old(View()) else Raise(old(View()), saved)
    {
      if saved != {} { SetFlags(saved); }
    }

    method GetLevel(item: nat) returns (level: bool)
      ensures level == IsHigh(View(), item)
    {
      level := item in items && items[item].obj in queues && queues[items[item].obj].Level(items[item].direction);
    }

    /** The end of process_event and what process_waiting_list does with its status. */
    method FinishItem(item: nat, status: Status)
      modifies this`items, this`freed, this`waiting_list, this`current_item
      ensures View() == Settle(old(View()), item, status)
    {
      current_item := None;
      if !(item in items && items[item].owned) {
        ItemFree(item);
      } else if status.Incomplete? {
        PushWaiting(item);
      }
    }

    method TakeAllFlags() returns (taken: set<Flag>)
      modifies this`flags, this`notified, this`dropped
      ensures taken == old(flags) && View() == TakeFlags(old(View()))
    {
      taken := flags;
      dropped := if StopFlag in flags then dropped + (flags - {StopFlag}) else dropped;
      flags, notified := {}, false;
    }

    /** One step of furi_event_loop_run, from one access to shared memory to the next; what other
        threads and the callbacks do comes in between. */
    method Advance(pc: Control) returns (pc': Control)
      requires pc.Waiting? ==> notified
      modifies this
      ensures forall n :: State(View(), pc', n) == Advanced(State(old(View()), pc, n))
    {
      pc' := pc;
      match pc
      case Stopped => pc' := Waiting;
      case Waiting =>
        var taken := TakeAllFlags();
        pc' := Dispatch(taken);
      case Popping(saved) =>
        var item := GetWaitingItem();
        pc' := if item.Some? then Selected(item.value, saved) else Restoring(saved);
      case Selected(item, saved) =>
        current_item := Some(item);
        var level := GetLevel(item);
        pc' := if (item in items && items[item].edge) || level then InCallback(item, saved)
               else Deciding(item, Complete, saved);
      case InCallback(item, saved) =>
        var level := GetLevel(item);
        pc' := Deciding(item, if !(item in items && items[item].edge) && level then Incomplete else Complete, saved);
      case Deciding(item, status, saved) =>
        var again := item in items && items[item].owned && status.Incomplete?;
        FinishItem(item, status);
        pc' := if again then Raising(saved) else Syncing(saved);
      case Raising(saved) => SetFlags({EventFlag}); pc' := Syncing(saved);
      case Syncing(saved) => SyncFlags(); pc' := Restoring(saved);
      case Restoring(saved) => RestoreFlags(saved); pc' := Waiting;
      case InTimers(saved) => pc' := Restoring(saved);
      case InPending(busy) =>
        if pending_queue == [] {
          pc' := Waiting;
        } else if busy {
          pending_queue := pending_queue[1..];
          pc' := InPending(false);
        } else {
          pc' := InPending(true);
        }
      case InOther => pc' := Waiting;
      case Crashed =>
    }
  }
}
