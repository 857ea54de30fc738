/** The co-routine scheduler of lib/FreeRTOS-Kernel/croutine.c as functions on its static state.
    Kernel lists appear as the values module ListOrder describes: a ready list is a ring whose
    first element is the end marker, with the position its index points at; a delayed list is the
    sequence of its items in order. */
module CoRoutineState {
  import opened ListOrder
  import opened Sequences

  const WRAP: nat := 0x1_0000_0000  // tick counts are 32 bits wide

  type CoRoutine = int  // a control block; non-negative
  const END: int := -1  // the end marker in a ring of co-routines

  datatype Ring = Ring(ring: seq<int>, pos: nat)
  {
    ghost predicate Ok() {
      |ring| > 0 && ring[0] == END && pos < |ring| && Distinct(ring)
      && forall i :: 0 < i < |ring| ==> ring[i] >= 0
    }

    /** vListInsertEnd. */
    function Append(c: CoRoutine): Ring {
      if pos == 0 || pos > |ring| then Ring(ring + [c], 0) else Ring(InsertAt(ring, pos, c), pos + 1)
    }

    /** uxListRemove. */
    function Drop(c: CoRoutine): Ring {
      var r := Find(ring, c);
      if r < |ring| && r > 0 then Ring(RemoveAt(ring, r), if r <= pos then pos - 1 else pos) else this
    }
  }

  function Find(s: seq<int>, c: int): (i: nat)
    ensures i <= |s| && (i < |s| ==> s[i] == c) && (i == |s| ==> c !in s)
    ensures forall j :: 0 <= j < i ==> s[j] != c
  {
    if s == [] || s[0] == c then 0 else 1 + Find(s[1..], c)
  }

  /** A delayed co-routine with its item value, the tick count to wake at. */
  datatype Delay = Delay(wake: int, who: CoRoutine)

  datatype State = State(
    ready: seq<Ring>,                // pxReadyCoRoutineLists, by priority
    delayed: seq<Delay>,             // *pxDelayedCoRoutineList
    overflow: seq<Delay>,            // *pxOverflowDelayedCoRoutineList
    pending: seq<CoRoutine>,         // xPendingReadyCoRoutineList
    onEvent: set<CoRoutine>,         // event items in some event list
    top: nat,                        // uxTopCoRoutineReadyPriority
    tick: int,                       // xCoRoutineTickCount
    current: CoRoutine,              // pxCurrentCoRoutine
    priority: map<CoRoutine, nat>)   // uxPriority of every co-routine

  // ---------------------------------------------------------------- operations

  function Wakes(ds: seq<Delay>): (values: seq<int>)
    ensures |values| == |ds| && forall i :: 0 <= i < |ds| ==> values[i] == ds[i].wake
  {
    seq(|ds|, i requires 0 <= i < |ds| => ds[i].wake)
  }

  function DropDelay(ds: seq<Delay>, c: CoRoutine): seq<Delay> {
    var i := Find(Whos(ds), c);
    if i < |ds| then RemoveAt(ds, i) else ds
  }

  function Whos(ds: seq<Delay>): (whos: seq<CoRoutine>)
    ensures |whos| == |ds| && forall i :: 0 <= i < |ds| ==> whos[i] == ds[i].who
  {
    seq(|ds|, i requires 0 <= i < |ds| => ds[i].who)
  }

  ghost predicate Known(s: State, c: CoRoutine) {
    c in s.priority && s.priority[c] < |s.ready|
  }

  ghost predicate AllKnown(s: State, ds: seq<Delay>) {
    forall i :: 0 <= i < |ds| ==> Known(s, ds[i].who)
  }

  /** prvAddCoRoutineToReadyQueue.  (An unknown co-routine, which Inv excludes, changes nothing.) */
  ghost function MakeReady(s: State, c: CoRoutine): State {
    if !Known(s, c) then s else
    var p := s.priority[c];
    s.(top := if p > s.top then p else s.top, ready := s.ready[p := s.ready[p].Append(c)])
  }

  /** vListInsert into a delayed list. */
  function InsertDelay(ds: seq<Delay>, d: Delay): seq<Delay> {
    InsertAt(ds, InsertionPoint(Wakes(ds), d.wake), d)
  }

  /** The running co-routine leaves its ready list. */
  ghost function Unready(s: State): State {
    if !Known(s, s.current) then s
    else var p := s.priority[s.current]; s.(ready := s.ready[p := s.ready[p].Drop(s.current)])
  }

  /** It goes to the overflow list when its wake time has wrapped. */
  ghost function Listed(s: State, d: Delay): State {
    if d.wake < s.tick then s.(overflow := InsertDelay(s.overflow, d)) else s.(delayed := InsertDelay(s.delayed, d))
  }

  ghost function Listening(s: State, event: bool): State {
    if event then s.(onEvent := s.onEvent + {s.current}) else s
  }

  /** vCoRoutineAddToDelayedList for the running co-routine. */
  ghost function AddToDelayed(s: State, ticks: nat, event: bool): State {
    if !Known(s, s.current) then s
    else Listening(Listed(Unready(s), Delay((s.tick + ticks) % WRAP, s.current)), event)
  }

  /** The inner loop of prvCheckDelayedList: every head whose time has come is made ready. */
  ghost function Expire(s: State): State
    decreases |s.delayed|
  {
    if s.delayed == [] || s.tick < s.delayed[0].wake then s
    else Expire(ExpireHead(s))
  }

  ghost function ExpireHead(s: State): State
    requires s.delayed != []
  {
    var c := s.delayed[0].who;
    MakeReady(s.(delayed := s.delayed[1..], onEvent := s.onEvent - {c}, pending := Without(s.pending, c)), c)
  }

  /** One iteration of the outer loop: a tick, with the swap of the delayed lists when it overflows. */
  ghost function Advance(s: State): State {
    var tick := (s.tick + 1) % WRAP;
    if tick == 0 then s.(tick := 0, delayed := s.overflow, overflow := s.delayed) else s.(tick := tick)
  }

  ghost function Tick(s: State): State {
    Expire(Advance(s))
  }

  /** k ticks, as one call of prvCheckDelayedList processes them. */
  ghost function Ticks(s: State, k: nat): State
    decreases k
  {
    if k == 0 then s else Ticks(Tick(s), k - 1)
  }

  /** One iteration of prvCheckPendingReadyList. */
  ghost function ReadyPending(s: State): State
    requires s.pending != []
  {
    var c := s.pending[0];
    MakeReady(s.(pending := s.pending[1..], delayed := DropDelay(s.delayed, c), overflow := DropDelay(s.overflow, c)), c)
  }

  ghost function CheckPending(s: State): State
    decreases |s.pending|
  {
    if s.pending == [] then s else CheckPending(ReadyPending(s))
  }

  /** The highest priority up to `top` with a ready co-routine, 0 when there is none. */
  ghost function Highest(ready: seq<Ring>, top: nat): (p: nat)
    requires top < |ready|
    ensures p <= top
  {
    if |ready[top].ring| > 1 || top == 0 then top else Highest(ready, top - 1)
  }

  /** The end of vCoRoutineSchedule: lowers top to a list in use and takes its next co-routine. */
  ghost function Pick(s: State): State {
    if s.top >= |s.ready| then s else
    var p := Highest(s.ready, s.top);
    var r := s.ready[p];
    if |r.ring| <= 1 || r.pos >= |r.ring| then s.(top := p)
    else
      var pos := NextPos(|r.ring|, r.pos);
      s.(top := p, ready := s.ready[p := Ring(r.ring, pos)], current := r.ring[pos])
  }

  /** vCoRoutineSchedule when `passed` ticks have gone by, up to the call of the co-routine. */
  ghost function Schedule(s: State, passed: nat): State {
    Pick(Ticks(CheckPending(s), passed))
  }

  ghost function Registered(s: State, c: CoRoutine, priority: nat): State
    requires |s.ready| > 0
  {
    s.(priority := s.priority[c := if priority >= |s.ready| then |s.ready| - 1 else priority],
       current := if s.priority == map[] then c else s.current)
  }

  /** xCoRoutineCreate, once the control block is allocated; the first co-routine becomes current. */
  ghost function Create(s: State, c: CoRoutine, priority: nat): State {
    if |s.ready| == 0 then s else MakeReady(Registered(s, c, priority), c)
  }

  /** xCoRoutineRemoveFromEventList, for the co-routine at the head of an event list. */
  ghost function Unblock(s: State, c: CoRoutine): State {
    s.(onEvent := s.onEvent - {c}, pending := s.pending + [c])
  }

  // ---------------------------------------------------------------- true time

  /** The state at true time T, a tick count that never wraps, with the true wake times: the
      current list holds this epoch's wake-ups in order, the overflow list those of the next. */
  ghost predicate OnTime(s: State, T: nat, due: map<CoRoutine, nat>) {
    && s.tick == T % WRAP
    && Sorted(Wakes(s.delayed)) && Sorted(Wakes(s.overflow))
    && AllDueIn(s.delayed, T / WRAP, due) && AllFrom(s.delayed, T + 1, due)
    && AllDueIn(s.overflow, T / WRAP + 1, due)
  }

  ghost predicate Due(d: Delay, epoch: nat, due: map<CoRoutine, nat>) {
    d.who in due && d.wake == due[d.who] % WRAP && due[d.who] / WRAP == epoch
  }

  ghost predicate AllDueIn(ds: seq<Delay>, epoch: nat, due: map<CoRoutine, nat>) {
    forall i :: 0 <= i < |ds| ==> Due(ds[i], epoch, due)
  }

  ghost predicate AllFrom(ds: seq<Delay>, T: nat, due: map<CoRoutine, nat>) {
    forall i :: 0 <= i < |ds| ==> ds[i].who in due && due[ds[i].who] >= T
  }

  // ---------------------------------------------------------------- the invariant

  ghost predicate Delayed(s: State, c: CoRoutine) {
    c in Whos(s.delayed) || c in Whos(s.overflow)
  }

  ghost predicate Ready(s: State, c: CoRoutine) {
    Known(s, c) && c in s.ready[s.priority[c]].ring
  }

  /** Ready lists are well formed and hold only co-routines of their priority; no list above top is used. */
  ghost predicate ReadyOk(s: State) {
    && s.top < |s.ready|
    && (forall p :: 0 <= p < |s.ready| ==> s.ready[p].Ok())
    && (forall p, i :: 0 <= p < |s.ready| && 0 < i < |s.ready[p].ring| ==>
          s.ready[p].ring[i] in s.priority && s.priority[s.ready[p].ring[i]] == p)
    && (forall p :: s.top < p < |s.ready| ==> |s.ready[p].ring| == 1)
    && (forall c :: c in s.priority ==> Known(s, c) && c >= 0)
  }

  /** Every co-routine but those in `hole` has its generic item in exactly one list, once. */
  ghost predicate PlacedBut(s: State, hole: set<CoRoutine>) {
    && AllKnown(s, s.delayed) && AllKnown(s, s.overflow)
    && Distinct(Whos(s.delayed)) && Distinct(Whos(s.overflow))
    && (forall c :: c in Whos(s.delayed) ==> c !in Whos(s.overflow))
    && (forall c :: Delayed(s, c) ==> !Ready(s, c))
    && (forall c :: c in s.priority && c !in hole ==> Ready(s, c) || Delayed(s, c))
    && (forall c :: c in hole ==> Known(s, c) && !Ready(s, c) && !Delayed(s, c))
  }

  /** Event items belong to delayed co-routines and are in one list. */
  ghost predicate EventsOk(s: State) {
    && Distinct(s.pending)
    && (forall c :: c in s.pending ==> Delayed(s, c) && c !in s.onEvent)
    && (forall c :: c in s.onEvent ==> Delayed(s, c))
  }

  ghost predicate Inv(s: State) {
    ReadyOk(s) && PlacedBut(s, {}) && EventsOk(s) && 0 <= s.tick < WRAP
  }

  // ---------------------------------------------------------------- ready lists

  lemma AppendOk(r: Ring, c: CoRoutine)
    requires r.Ok() && c !in r.ring && c >= 0
    ensures r.Append(c).Ok() && forall x :: x in r.Append(c).ring <==> x in r.ring || x == c
  {
    if r.pos > 0 { InsertDistinct(r.ring, r.pos, c); } else { InsertDistinct(r.ring, |r.ring|, c); }
    assert InsertAt(r.ring, |r.ring|, c) == r.ring + [c];
  }

  lemma DropOk(r: Ring, c: CoRoutine)
    requires r.Ok() && c in r.ring && c >= 0
    ensures r.Drop(c).Ok() && forall x :: x in r.Drop(c).ring <==> x in r.ring && x != c
  {
    var i := Find(r.ring, c);
    RemoveDistinct(r.ring, i);
  }

  lemma MakeReadyKeeps(s: State, c: CoRoutine)
    requires ReadyOk(s) && PlacedBut(s, {c})
    ensures ReadyOk(MakeReady(s, c)) && PlacedBut(MakeReady(s, c), {}) && Ready(MakeReady(s, c), c)
    ensures forall x :: x != c ==> Ready(MakeReady(s, c), x) == Ready(s, x)
  {
    var p, s' := s.priority[c], MakeReady(s, c);
    AppendOk(s.ready[p], c);
    forall q, i | 0 <= q < |s'.ready| && 0 < i < |s'.ready[q].ring|
      ensures s'.ready[q].ring[i] in s'.priority && s'.priority[s'.ready[q].ring[i]] == q
    {
      MemberPriority(s, q, s'.ready[q].ring[i]);
    }
    forall x ensures x != c ==> Ready(s', x) == Ready(s, x) {}
  }

  lemma MemberPriority(s: State, q: nat, x: int)
    requires ReadyOk(s) && q < |s.ready|
    ensures x in s.ready[q].ring && x != END ==> x >= 0 && x in s.priority && s.priority[x] == q
  {
    if x in s.ready[q].ring && x != END {
      var i :| 0 <= i < |s.ready[q].ring| && s.ready[q].ring[i] == x;
      assert i > 0;
    }
  }

  lemma DropReadyKeeps(s: State, c: CoRoutine)
    requires ReadyOk(s) && PlacedBut(s, {}) && Ready(s, c)
    ensures var p := s.priority[c];
            var s' := s.(ready := s.ready[p := s.ready[p].Drop(c)]);
            && ReadyOk(s') && PlacedBut(s', {c}) && forall x :: x != c ==> Ready(s', x) == Ready(s, x)
  {
    var p := s.priority[c];
    var s' := s.(ready := s.ready[p := s.ready[p].Drop(c)]);
    DropOk(s.ready[p], c);
    forall q, i | 0 <= q < |s'.ready| && 0 < i < |s'.ready[q].ring|
      ensures s'.ready[q].ring[i] in s'.priority && s'.priority[s'.ready[q].ring[i]] == q
    {
      assert s'.ready[q].ring[i] in s.ready[q].ring;
      MemberPriority(s, q, s'.ready[q].ring[i]);
    }
    forall x ensures x != c ==> Ready(s', x) == Ready(s, x) {}
  }

  /** A co-routine made ready is the last the walk over its list comes to, apart from the one at the index. */
  lemma AppendIsLast(r: Ring, c: CoRoutine)
    requires r.Ok()
    ensures var r', w := r.Append(c), Walk(r.ring, r.pos);
            && r'.pos < |r'.ring| && r'.ring[r'.pos] == r.ring[r.pos]
            && Walk(r'.ring, r'.pos) == if r.pos == 0 then w + [c] else w[..|w| - 1] + [c] + [r.ring[r.pos]]
  {
    InsertEndWalk(r.ring, r.pos, c);
  }

  /** One that leaves its list is taken out of the walk; the order of the rest is kept. */
  lemma DropKeepsOrder(r: Ring, c: CoRoutine) returns (k: nat)
    requires r.Ok() && c in r.ring && c >= 0
    ensures var r', w := r.Drop(c), Walk(r.ring, r.pos);
            && k < |w| && w[k] == c && r'.pos < |r'.ring| && Walk(r'.ring, r'.pos) == w[..k] + w[k + 1..]
  {
    var i := Find(r.ring, c);
    RemoveWalk(r.ring, r.pos, i);
    k := if i > r.pos then i - r.pos - 1 else |r.ring| - r.pos - 1 + i - 1;
  }

  /** A new co-routine gets the priority asked for, or the highest there is; it joins the ready list of that
      priority, becomes current if it is the first of all, and changes nothing else. */
  lemma CreatedAsAsked(s: State, c: CoRoutine, priority: nat)
    requires ReadyOk(s) && |s.ready| > 0
    ensures var s', p := Create(s, c, priority), if priority < |s.ready| then priority else |s.ready| - 1;
            && s'.priority == s.priority[c := p] && s'.ready == s.ready[p := s.ready[p].Append(c)]
            && s'.current == (if s.priority == map[] then c else s.current)
            && s'.top == (if p > s.top then p else s.top)
            && s' == s.(priority := s'.priority, ready := s'.ready, current := s'.current, top := s'.top)
  {
  }

  // ---------------------------------------------------------------- delayed lists

  lemma RemoveParts(ds: seq<Delay>, i: nat)
    requires i < |ds|
    ensures Whos(RemoveAt(ds, i)) == RemoveAt(Whos(ds), i) && Wakes(RemoveAt(ds, i)) == RemoveAt(Wakes(ds), i)
  {
  }

  lemma InsertParts(ds: seq<Delay>, i: nat, d: Delay)
    requires i <= |ds|
    ensures Whos(InsertAt(ds, i, d)) == InsertAt(Whos(ds), i, d.who)
    ensures Wakes(InsertAt(ds, i, d)) == InsertAt(Wakes(ds), i, d.wake)
  {
  }

  lemma SortedRemove(values: seq<int>, i: nat)
    requires i < |values| && Sorted(values)
    ensures Sorted(RemoveAt(values, i))
  {
  }

  lemma DropDelayKeeps(ds: seq<Delay>, c: CoRoutine)
    requires Distinct(Whos(ds)) && Sorted(Wakes(ds))
    ensures var ds' := DropDelay(ds, c);
            && Distinct(Whos(ds')) && (forall x :: x in Whos(ds') <==> x in Whos(ds) && x != c)
            && (forall i :: 0 <= i < |ds'| ==> ds'[i] in ds) && Sorted(Wakes(ds'))
  {
    var i := Find(Whos(ds), c);
    if i < |ds| {
      RemoveParts(ds, i);
      RemoveDistinct(Whos(ds), i);
      SortedRemove(Wakes(ds), i);
    }
  }

  lemma InsertDelayKeeps(ds: seq<Delay>, d: Delay)
    requires Distinct(Whos(ds)) && Sorted(Wakes(ds)) && d.who !in Whos(ds)
    ensures var ds' := InsertDelay(ds, d);
            && Distinct(Whos(ds')) && (forall x :: x in Whos(ds') <==> x in Whos(ds) || x == d.who)
            && (forall i :: 0 <= i < |ds'| ==> ds'[i] == d || ds'[i] in ds) && Sorted(Wakes(ds'))
  {
    var k := InsertionPoint(Wakes(ds), d.wake);
    InsertParts(ds, k, d);
    InsertionIsSortedAndStable(Wakes(ds), d.wake);
    InsertDistinct(Whos(ds), k, d.who);
  }

  lemma TailKeeps(ds: seq<Delay>)
    requires Distinct(Whos(ds)) && ds != []
    ensures Distinct(Whos(ds[1..])) && (forall x :: x in Whos(ds[1..]) <==> x in Whos(ds) && x != ds[0].who)
    ensures Sorted(Wakes(ds)) ==> Sorted(Wakes(ds[1..]))
  {
    assert RemoveAt(ds, 0) == ds[1..];
    RemoveParts(ds, 0);
    RemoveDistinct(Whos(ds), 0);
    if Sorted(Wakes(ds)) { SortedRemove(Wakes(ds), 0); }
  }

  // ---------------------------------------------------------------- ticks

  /** The state between the swap and the wake-ups of tick T: nothing in the current list is overdue. */
  ghost predicate AtTick(s: State, T: nat, due: map<CoRoutine, nat>) {
    && s.tick == T % WRAP
    && Sorted(Wakes(s.delayed)) && Sorted(Wakes(s.overflow))
    && AllDueIn(s.delayed, T / WRAP, due) && AllFrom(s.delayed, T, due)
    && AllDueIn(s.overflow, T / WRAP + 1, due)
  }

  lemma NextTick(T: nat)
    ensures (T + 1) % WRAP == (T % WRAP + 1) % WRAP
    ensures (T + 1) / WRAP == if (T + 1) % WRAP == 0 then T / WRAP + 1 else T / WRAP
  {
  }

  /** A wake-up still to come in the epoch of T means T is not the epoch's last tick. */
  lemma LaterThisEpoch(d: Delay, T: nat, due: map<CoRoutine, nat>)
    requires Due(d, T / WRAP, due) && due[d.who] > T
    ensures (T + 1) % WRAP != 0
  {
  }

  /** At the swap the current list is empty, and the overflow list has become current. */
  lemma AdvanceOnTime(s: State, T: nat, due: map<CoRoutine, nat>)
    requires Inv(s) && OnTime(s, T, due)
    ensures Inv(Advance(s)) && AtTick(Advance(s), T + 1, due)
    ensures (s.tick + 1) % WRAP == 0 ==> s.delayed == []
    ensures forall c :: Ready(Advance(s), c) == Ready(s, c) && Delayed(Advance(s), c) == Delayed(s, c)
  {
    NextTick(T);
    if s.delayed != [] { LaterThisEpoch(s.delayed[0], T, due); }
  }

  lemma ExpireHeadKeeps(s: State, T: nat, due: map<CoRoutine, nat>)
    requires Inv(s) && AtTick(s, T, due) && s.delayed != [] && s.tick >= s.delayed[0].wake
    ensures Inv(ExpireHead(s)) && AtTick(ExpireHead(s), T, due)
    ensures var c := s.delayed[0].who;
            && Delayed(s, c) && due[c] == T && Ready(ExpireHead(s), c)
            && forall x :: x != c ==> Ready(ExpireHead(s), x) == Ready(s, x) && Delayed(ExpireHead(s), x) == Delayed(s, x)
  {
    var c := s.delayed[0].who;
    assert c == Whos(s.delayed)[0];
    assert Due(s.delayed[0], T / WRAP, due);
    TailKeeps(s.delayed);
    WithoutMembers(s.pending, c);
    WithoutDistinct(s.pending, c);
    var s1 := s.(delayed := s.delayed[1..], onEvent := s.onEvent - {c}, pending := Without(s.pending, c));
    assert PlacedBut(s1, {c});
    MakeReadyKeeps(s1, c);
  }

  lemma {:induction false} ExpireKeeps(s: State, T: nat, due: map<CoRoutine, nat>)
    requires Inv(s) && AtTick(s, T, due)
    ensures Inv(Expire(s)) && OnTime(Expire(s), T, due) && Expire(s).priority == s.priority
    ensures forall c :: Ready(s, c) ==> Ready(Expire(s), c)
    ensures forall c :: Delayed(s, c) && due[c] == T ==> Ready(Expire(s), c)
    ensures forall c :: Delayed(s, c) && due[c] > T ==> Delayed(Expire(s), c)
    decreases |s.delayed|
  {
    AllDue(s, T, due);
    if s.delayed == [] || s.tick < s.delayed[0].wake {
      NoneDue(s, T, due);
    } else {
      ExpireHeadKeeps(s, T, due);
      ExpireKeeps(ExpireHead(s), T, due);
    }
  }

  /** Every delayed co-routine has a true wake time. */
  lemma AllDue(s: State, T: nat, due: map<CoRoutine, nat>)
    requires AtTick(s, T, due)
    ensures forall c :: c in Whos(s.delayed) ==> c in due && due[c] >= T
    ensures forall c :: c in Whos(s.overflow) ==> c in due && due[c] > T
  {
    forall c | c in Whos(s.delayed) ensures c in due && due[c] >= T {
      var i :| 0 <= i < |s.delayed| && Whos(s.delayed)[i] == c;
      assert s.delayed[i].who == c;
    }
    forall c | c in Whos(s.overflow) ensures c in due && due[c] > T {
      var i :| 0 <= i < |s.overflow| && Whos(s.overflow)[i] == c;
      assert Due(s.overflow[i], T / WRAP + 1, due);
    }
  }

  /** When the head of the current list is not due, nothing is. */
  lemma NoneDue(s: State, T: nat, due: map<CoRoutine, nat>)
    requires AtTick(s, T, due) && (s.delayed == [] || s.tick < s.delayed[0].wake)
    ensures OnTime(s, T, due) && forall c :: c in Whos(s.delayed) ==> c in due && due[c] > T
  {
    forall i | 0 <= i < |s.delayed| ensures due[s.delayed[i].who] > T {
      assert Wakes(s.delayed)[0] <= Wakes(s.delayed)[i];
      assert Due(s.delayed[i], T / WRAP, due);
    }
    forall c | c in Whos(s.delayed) ensures c in due && due[c] > T {
      var i :| 0 <= i < |s.delayed| && Whos(s.delayed)[i] == c;
      assert s.delayed[i].who == c;
    }
  }

  /** One tick makes ready exactly the co-routines whose true wake time it is. */
  lemma TickIsExact(s: State, T: nat, due: map<CoRoutine, nat>)
    requires Inv(s) && OnTime(s, T, due)
    ensures Inv(Tick(s)) && OnTime(Tick(s), T + 1, due) && Tick(s).priority == s.priority
    ensures forall c :: Ready(s, c) ==> Ready(Tick(s), c)
    ensures forall c :: Delayed(s, c) ==> c in due && due[c] > T
    ensures forall c :: Delayed(s, c) ==> (Ready(Tick(s), c) <==> due[c] == T + 1)
  {
    AdvanceOnTime(s, T, due);
    var s1 := Advance(s);
    AllDue(s1, T + 1, due);
    ExpireKeeps(s1, T + 1, due);
  }

  datatype Place = InReadyList | InDelayedList | Unknown

  /** The list a co-routine's generic item is in. */
  ghost function Where(s: State, c: CoRoutine): Place {
    if Ready(s, c) then InReadyList else if Delayed(s, c) then InDelayedList else Unknown
  }

  ghost predicate Timely(s: State, T: nat, due: map<CoRoutine, nat>) {
    Inv(s) && OnTime(s, T, due)
  }

  lemma TickFor(s: State, T: nat, due: map<CoRoutine, nat>, c: CoRoutine)
    requires Timely(s, T, due)
    ensures Timely(Tick(s), T + 1, due)
    ensures Where(s, c) == InReadyList ==> Where(Tick(s), c) == InReadyList
    ensures Where(s, c) == InDelayedList ==>
              c in due && due[c] > T && Where(Tick(s), c) == if due[c] == T + 1 then InReadyList else InDelayedList
  {
    TickIsExact(s, T, due);
    ReadyOrDelayed(s, c);
    ReadyOrDelayed(Tick(s), c);
  }

  lemma TicksStep(s: State, T: nat, end: nat)
    requires T < end
    ensures Ticks(s, end - T) == Ticks(Tick(s), end - (T + 1))
  {
  }

  lemma {:induction false} TicksKeep(s: State, T: nat, end: nat, due: map<CoRoutine, nat>)
    requires Timely(s, T, due) && T <= end
    ensures Timely(Ticks(s, end - T), end, due)
    decreases end - T
  {
    hide Timely, Tick;
    if T < end {
      TickFor(s, T, due, s.current);
      TicksStep(s, T, end);
      TicksKeep(Tick(s), T + 1, end, due);
    }
  }

  lemma {:induction false} StaysReady(s: State, T: nat, end: nat, due: map<CoRoutine, nat>, c: CoRoutine)
    requires Timely(s, T, due) && Where(s, c) == InReadyList && T <= end
    ensures WhereAt(s, T, end, c) == InReadyList
    decreases end - T
  {
    hide Timely, Tick, Where;
    if T < end {
      TickFor(s, T, due, c);
      WhereStep(s, T, end, c);
      StaysReady(Tick(s), T + 1, end, due, c);
    }
  }

  /** Never early, late or missed: a co-routine due at true time T + d is still delayed at any time
      before it and ready from then on, whatever wraps or swaps happen in between. */
  lemma {:induction false} WakesOnTime(s: State, T: nat, end: nat, due: map<CoRoutine, nat>, c: CoRoutine)
    requires Timely(s, T, due) && Where(s, c) == InDelayedList && T <= end
    ensures c in due && due[c] > T
    ensures WhereAt(s, T, end, c) == if end < due[c] then InDelayedList else InReadyList
    decreases end - T
  {
    hide Timely, Tick, Where;
    TickFor(s, T, due, c);
    if T < end {
      WhereStep(s, T, end, c);
      if due[c] == T + 1 {
        StaysReady(Tick(s), T + 1, end, due, c);
      } else {
        WakesOnTime(Tick(s), T + 1, end, due, c);
      }
    }
  }

  /** The list c is in at true time end, when nothing but ticks happens from time T on. */
  ghost function WhereAt(s: State, T: nat, end: nat, c: CoRoutine): Place
    requires T <= end
  {
    Where(Ticks(s, end - T), c)
  }

  lemma WhereStep(s: State, T: nat, end: nat, c: CoRoutine)
    requires T < end
    ensures WhereAt(s, T, end, c) == WhereAt(Tick(s), T + 1, end, c)
  {
    hide Tick, Where;
    TicksStep(s, T, end);
  }

  lemma ReadyOrDelayed(s: State, c: CoRoutine)
    requires Inv(s)
    ensures Delayed(s, c) ==> !Ready(s, c)
    ensures c in s.priority ==> Ready(s, c) || Delayed(s, c)
    ensures Delayed(s, c) ==> c in s.priority
  {
    if c in Whos(s.delayed) {
      var i :| 0 <= i < |s.delayed| && Whos(s.delayed)[i] == c;
      assert Known(s, s.delayed[i].who);
    } else if c in Whos(s.overflow) {
      var i :| 0 <= i < |s.overflow| && Whos(s.overflow)[i] == c;
      assert Known(s, s.overflow[i].who);
    }
  }

  /** vCoRoutineAddToDelayedList by d > 0 ticks records true wake time T + d, in the list the tick
      count's overflow calls for. */
  lemma DelayOnTime(s: State, T: nat, due: map<CoRoutine, nat>, d: nat, event: bool)
    requires Timely(s, T, due) && Ready(s, s.current) && 0 < d < 0x1_0000_0000
    ensures var s' := AddToDelayed(s, d, event);
            && Timely(s', T, due[s.current := T + d]) && Delayed(s', s.current)
            && forall c :: c != s.current ==> Ready(s', c) == Ready(s, c) && Delayed(s', c) == Delayed(s, c)
    ensures var s' := AddToDelayed(s, d, event);
            && s'.onEvent == (if event then s.onEvent + {s.current} else s.onEvent)
            && s'.pending == s.pending && s'.current == s.current && s'.priority == s.priority
  {
    DelayKeeps(s, T, due, d, event);
    DelayDue(s, T, due, d, event);
    DelayFields(s, d, event);
  }

  lemma DelayKeeps(s: State, T: nat, due: map<CoRoutine, nat>, d: nat, event: bool)
    requires Inv(s) && OnTime(s, T, due) && Ready(s, s.current) && 0 < d < WRAP
    ensures var s' := AddToDelayed(s, d, event);
            && Inv(s') && Delayed(s', s.current)
            && forall c :: c != s.current ==> Ready(s', c) == Ready(s, c) && Delayed(s', c) == Delayed(s, c)
  {
    var c, p := s.current, s.priority[s.current];
    var s' := AddToDelayed(s, d, event);
    var wake := (s.tick + d) % WRAP;
    var s1 := s.(ready := s.ready[p := s.ready[p].Drop(c)]);
    DelayFields(s, d, event);
    DropReadyKeeps(s, c);
    DelayPlaced(s1, s', Delay(wake, c), wake < s.tick);
  }

  lemma DelayPlaced(s1: State, s': State, d: Delay, overflowed: bool)
    requires PlacedBut(s1, {d.who}) && s'.ready == s1.ready && s'.priority == s1.priority
    requires Sorted(Wakes(s1.delayed)) && Sorted(Wakes(s1.overflow))
    requires s'.delayed == if overflowed then s1.delayed else InsertDelay(s1.delayed, d)
    requires s'.overflow == if overflowed then InsertDelay(s1.overflow, d) else s1.overflow
    ensures PlacedBut(s', {}) && forall c :: Delayed(s', c) <==> Delayed(s1, c) || c == d.who
  {
    InsertDelayKeeps(if overflowed then s1.overflow else s1.delayed, d);
    forall c ensures Ready(s', c) == Ready(s1, c) {}
    assert AllKnown(s', s'.delayed) by {
      forall i | 0 <= i < |s'.delayed| ensures Known(s', s'.delayed[i].who) {
        if s'.delayed[i] != d { assert s'.delayed[i] in s1.delayed; }
      }
    }
    assert AllKnown(s', s'.overflow) by {
      forall i | 0 <= i < |s'.overflow| ensures Known(s', s'.overflow[i].who) {
        if s'.overflow[i] != d { assert s'.overflow[i] in s1.overflow; }
      }
    }
  }

  lemma DelayDue(s: State, T: nat, due: map<CoRoutine, nat>, d: nat, event: bool)
    requires OnTime(s, T, due) && Known(s, s.current) && 0 < d < WRAP
    requires s.current !in Whos(s.delayed) && s.current !in Whos(s.overflow)
    ensures OnTime(AddToDelayed(s, d, event), T, due[s.current := T + d])
  {
    var c := s.current;
    var s', due' := AddToDelayed(s, d, event), due[c := T + d];
    var wake := (s.tick + d) % WRAP;
    NewDue(s, T, due, d);
    KeepDue(s.delayed, T / WRAP, due, c, T + d);
    KeepDue(s.overflow, T / WRAP + 1, due, c, T + d);
    DelayFields(s, d, event);
    if wake < s.tick {
      AddDue(s.overflow, T / WRAP + 1, due', Delay(wake, c), T);
      assert OnTime(s', T, due');
    } else {
      AddDue(s.delayed, T / WRAP, due', Delay(wake, c), T);
      assert OnTime(s', T, due');
    }
  }

  lemma DelayFields(s: State, d: nat, event: bool)
    requires Known(s, s.current)
    ensures var c, s', wake := s.current, AddToDelayed(s, d, event), (s.tick + d) % WRAP;
            && s'.tick == s.tick && s'.priority == s.priority && s'.pending == s.pending && s'.top == s.top
            && s'.current == c && s'.onEvent == (if event then s.onEvent + {c} else s.onEvent)
            && s'.ready == s.ready[s.priority[c] := s.ready[s.priority[c]].Drop(c)]
            && (wake < s.tick ==> s'.delayed == s.delayed && s'.overflow == InsertDelay(s.overflow, Delay(wake, c)))
            && (wake >= s.tick ==> s'.delayed == InsertDelay(s.delayed, Delay(wake, c)) && s'.overflow == s.overflow)
  {
    var wake := (s.tick + d) % WRAP;
    if wake < s.tick {
    } else {
    }
  }

  lemma NewDue(s: State, T: nat, due: map<CoRoutine, nat>, d: nat)
    requires s.tick == T % WRAP && 0 < d < WRAP
    ensures var wake := (s.tick + d) % WRAP;
            Due(Delay(wake, s.current), if wake < s.tick then T / WRAP + 1 else T / WRAP, due[s.current := T + d])
  {
    WakeEpoch(T, d);
  }

  /** Giving c, which is not in the list, a wake time leaves the list's wake times alone. */
  lemma KeepDue(ds: seq<Delay>, epoch: nat, due: map<CoRoutine, nat>, c: CoRoutine, w: nat)
    requires AllDueIn(ds, epoch, due) && c !in Whos(ds)
    ensures AllDueIn(ds, epoch, due[c := w])
    ensures forall t: nat :: AllFrom(ds, t, due) ==> AllFrom(ds, t, due[c := w])
  {
    forall i | 0 <= i < |ds| ensures ds[i].who != c && Due(ds[i], epoch, due[c := w]) {
      assert Whos(ds)[i] == ds[i].who;
    }
  }

  lemma AddDue(ds: seq<Delay>, epoch: nat, due: map<CoRoutine, nat>, d: Delay, T: nat)
    requires AllDueIn(ds, epoch, due) && Due(d, epoch, due) && Sorted(Wakes(ds))
    ensures var ds' := InsertDelay(ds, d);
            && AllDueIn(ds', epoch, due) && Sorted(Wakes(ds'))
            && (AllFrom(ds, T + 1, due) && due[d.who] > T ==> AllFrom(ds', T + 1, due))
  {
    InsertionIsSortedAndStable(Wakes(ds), d.wake);
    InsertParts(ds, InsertionPoint(Wakes(ds), d.wake), d);
  }

  lemma WakeEpoch(T: nat, d: nat)
    requires 0 < d < WRAP
    ensures (T % WRAP + d) % WRAP == (T + d) % WRAP
    ensures (T + d) / WRAP == if (T + d) % WRAP < T % WRAP then T / WRAP + 1 else T / WRAP
  {
  }

  // ---------------------------------------------------------------- scheduling

  lemma {:induction false} HighestIsHighest(ready: seq<Ring>, top: nat)
    requires top < |ready|
    ensures forall p :: Highest(ready, top) < p <= top ==> |ready[p].ring| <= 1
    ensures Highest(ready, top) > 0 ==> |ready[Highest(ready, top)].ring| > 1
    decreases top
  {
    if |ready[top].ring| <= 1 && top > 0 { HighestIsHighest(ready, top - 1); }
  }

  /** The scheduler runs a ready co-routine whenever there is one, and one of the highest priority. */
  lemma RunsHighest(s: State)
    requires Inv(s)
    ensures var s' := Pick(s);
            && (forall c :: Where(s', c) == Where(s, c))
            && (s.ready[s'.top].Ok() && (|s'.ready[s'.top].ring| == 1 ==> forall c :: !Ready(s, c)))
            && (forall q :: s'.top < q < |s'.ready| ==> |s'.ready[q].ring| == 1)
            && (s'.top > 0 ==> |s'.ready[s'.top].ring| > 1)
            && ((exists c :: Ready(s, c)) ==>
                  && Ready(s, s'.current)
                  && forall c :: Ready(s, c) ==> s.priority[c] <= s.priority[s'.current])
  {
    var s', p := Pick(s), Highest(s.ready, s.top);
    HighestIsHighest(s.ready, s.top);
    forall c ensures Ready(s', c) == Ready(s, c) && Delayed(s', c) == Delayed(s, c) {}
    forall c | Ready(s, c)
      ensures s.priority[c] <= p && |s.ready[p].ring| > 1 && Ready(s, s'.current) && s.priority[s'.current] == p
    {
      var q := s.priority[c];
      assert |s.ready[q].ring| > 1 by { SecondMember(s.ready[q], c); }
      assert q <= s.top;
      var pos := NextPos(|s.ready[p].ring|, s.ready[p].pos);
      MemberPriority(s, p, s.ready[p].ring[pos]);
    }
  }

  lemma SecondMember(r: Ring, c: CoRoutine)
    requires r.Ok() && c in r.ring && c != END
    ensures |r.ring| > 1
  {
    var i :| 0 <= i < |r.ring| && r.ring[i] == c;
  }

  lemma PickKeeps(s: State, T: nat, due: map<CoRoutine, nat>)
    requires Timely(s, T, due)
    ensures Timely(Pick(s), T, due)
  {
    var s', p := Pick(s), Highest(s.ready, s.top);
    HighestIsHighest(s.ready, s.top);
    forall c ensures Ready(s', c) == Ready(s, c) && Delayed(s', c) == Delayed(s, c) {}
    forall q, i | 0 <= q < |s'.ready| && 0 < i < |s'.ready[q].ring|
      ensures s'.ready[q].ring[i] in s'.priority && s'.priority[s'.ready[q].ring[i]] == q
    {
      assert s'.ready[q].ring == s.ready[q].ring;
    }
  }

  /** The co-routines n successive picks run while the ready lists do not change. */
  ghost function Picks(s: State, n: nat): (picks: seq<CoRoutine>)
    ensures |picks| == n
    decreases n
  {
    if n == 0 then [] else [Pick(s).current] + Picks(Pick(s), n - 1)
  }

  ghost predicate Running(s: State, p: nat) {
    && s.top == p < |s.ready| && |s.ready[p].ring| > 1 && s.ready[p].pos < |s.ready[p].ring|
  }

  /** Successive picks follow the walk over the highest ready list. */
  lemma {:induction false} PicksWalk(s: State, p: nat, n: nat)
    requires Running(s, p)
    ensures Picks(s, n) == Visits(Walk(s.ready[p].ring, s.ready[p].pos), n)
    decreases n
  {
    if n > 0 {
      StepRotates(s.ready[p].ring, s.ready[p].pos);
      PicksWalk(Pick(s), p, n - 1);
    }
  }

  lemma PicksFrom(s: State, p: nat, start: nat)
    requires Running(s, p) && start < |s.ready[p].ring| - 1
    ensures var w := Walk(s.ready[p].ring, s.ready[p].pos);
            |w| == |s.ready[p].ring| - 1 && Picks(s, start + |w|)[start..] == w[start..] + w[..start]
  {
    var w := Walk(s.ready[p].ring, s.ready[p].pos);
    PicksWalk(s, p, start + |w|);
    EveryoneOnce(w, start);
  }

  /** Fair sharing: with a fixed ready list of k co-routines, any k successive schedules run each
      of them once, in list order. */
  lemma PicksAreFair(s: State, p: nat, start: nat)
    requires Running(s, p) && start < |s.ready[p].ring| - 1
    ensures var k, w := |s.ready[p].ring| - 1, Walk(s.ready[p].ring, s.ready[p].pos);
            && |w| == k && Picks(s, start + k)[start..] == w[start..] + w[..start]
            && multiset(Picks(s, start + k)[start..]) == multiset(s.ready[p].ring[1..])
  {
    hide Picks;
    PicksFrom(s, p, start);
    WalkIsEveryone(s.ready[p].ring, s.ready[p].pos, start);
  }

  lemma WalkIsEveryone(ring: seq<int>, pos: nat, start: nat)
    requires pos < |ring| && start <= |Walk(ring, pos)|
    ensures var w := Walk(ring, pos); multiset(w[start..] + w[..start]) == multiset(ring[1..])
  {
    var w := Walk(ring, pos);
    assert w == w[..start] + w[start..];
    SwapCounts(w[..start], w[start..]);
    assert ring[1..] == ring[1..pos + 1] + ring[pos + 1..];
    SwapCounts(ring[1..pos + 1], ring[pos + 1..]);
  }

  lemma SwapCounts<T>(a: seq<T>, b: seq<T>)
    ensures multiset(a + b) == multiset(b + a)
  {
  }

  // ---------------------------------------------------------------- runs

  lemma PendingKeeps(s: State, T: nat, due: map<CoRoutine, nat>)
    requires Timely(s, T, due) && s.pending != []
    ensures Timely(ReadyPending(s), T, due) && Ready(ReadyPending(s), s.pending[0])
  {
    var c := s.pending[0];
    assert c in s.pending;
    var s1 := s.(pending := s.pending[1..], delayed := DropDelay(s.delayed, c), overflow := DropDelay(s.overflow, c));
    ReadyOrDelayed(s, c);
    PendingPlaced(s, s1, c);
    assert forall x :: x in s1.pending ==> x in s.pending && x != c;
    MakeReadyKeeps(s1, c);
    assert EventsOk(s1);
    PendingOnTime(s, T, due, c);
  }

  lemma PendingOnTime(s: State, T: nat, due: map<CoRoutine, nat>, c: CoRoutine)
    requires OnTime(s, T, due) && Distinct(Whos(s.delayed)) && Distinct(Whos(s.overflow))
    ensures var delayed, overflow := DropDelay(s.delayed, c), DropDelay(s.overflow, c);
            && Sorted(Wakes(delayed)) && Sorted(Wakes(overflow))
            && AllDueIn(delayed, T / WRAP, due) && AllFrom(delayed, T + 1, due) && AllDueIn(overflow, T / WRAP + 1, due)
  {
    DropDelayKeeps(s.delayed, c);
    DropDelayKeeps(s.overflow, c);
    DroppedDue(s.delayed, c, T / WRAP, T + 1, due);
    DroppedDue(s.overflow, c, T / WRAP + 1, T + 1, due);
  }

  lemma DroppedDue(ds: seq<Delay>, c: CoRoutine, epoch: nat, T: nat, due: map<CoRoutine, nat>)
    requires AllDueIn(ds, epoch, due)
    ensures AllDueIn(DropDelay(ds, c), epoch, due)
    ensures AllFrom(ds, T, due) ==> AllFrom(DropDelay(ds, c), T, due)
  {
  }

  lemma PendingPlaced(s: State, s1: State, c: CoRoutine)
    requires PlacedBut(s, {}) && Sorted(Wakes(s.delayed)) && Sorted(Wakes(s.overflow)) && Delayed(s, c) && Known(s, c)
    requires s1.ready == s.ready && s1.priority == s.priority
    requires s1.delayed == DropDelay(s.delayed, c) && s1.overflow == DropDelay(s.overflow, c)
    ensures PlacedBut(s1, {c}) && forall x :: Delayed(s1, x) <==> Delayed(s, x) && x != c
  {
    DropDelayKeeps(s.delayed, c);
    DropDelayKeeps(s.overflow, c);
    forall x ensures Ready(s1, x) == Ready(s, x) {}
    DropKnown(s, s1, s.delayed, c);
    DropKnown(s, s1, s.overflow, c);
  }

  lemma DropKnown(s: State, s1: State, ds: seq<Delay>, c: CoRoutine)
    requires AllKnown(s, ds) && s1.priority == s.priority && |s1.ready| == |s.ready|
    ensures AllKnown(s1, DropDelay(ds, c))
  {
  }

  lemma {:induction false} CheckPendingKeeps(s: State, T: nat, due: map<CoRoutine, nat>)
    requires Timely(s, T, due)
    ensures Timely(CheckPending(s), T, due) && CheckPending(s).pending == []
    decreases |s.pending|
  {
    hide Timely, ReadyPending;
    if s.pending != [] {
      PendingKeeps(s, T, due);
      PendingShrinks(s);
      CheckPendingKeeps(ReadyPending(s), T, due);
    }
  }

  lemma PendingShrinks(s: State)
    requires s.pending != []
    ensures ReadyPending(s).pending == s.pending[1..]
  {
  }

  lemma UnblockKeeps(s: State, c: CoRoutine)
    requires Inv(s) && c in s.onEvent
    ensures Inv(Unblock(s, c))
    ensures forall x :: Ready(Unblock(s, c), x) == Ready(s, x) && Delayed(Unblock(s, c), x) == Delayed(s, x)
    ensures forall T: nat, due :: Timely(s, T, due) ==> Timely(Unblock(s, c), T, due)
    ensures forall T: nat, due :: AtTick(s, T, due) ==> AtTick(Unblock(s, c), T, due)
  {
    var s' := Unblock(s, c);
    assert c !in s.pending;
    forall x ensures Ready(s', x) == Ready(s, x) && Delayed(s', x) == Delayed(s, x) {}
  }

  lemma RegisteredPlaced(s: State, c: CoRoutine, priority: nat)
    requires Inv(s) && c !in s.priority && c >= 0
    ensures var s1 := Registered(s, c, priority); ReadyOk(s1) && PlacedBut(s1, {c}) && EventsOk(s1)
  {
    var s1 := Registered(s, c, priority);
    NewIsNowhere(s, c);
    forall x | x != c ensures Ready(s1, x) == Ready(s, x) {}
    assert !Ready(s1, c) by { MemberPriority(s, s1.priority[c], c); }
    assert forall i :: 0 <= i < |s.delayed| ==> Known(s, s.delayed[i].who) && s.delayed[i].who != c;
    assert forall i :: 0 <= i < |s.overflow| ==> Known(s, s.overflow[i].who) && s.overflow[i].who != c;
  }

  lemma CreateKeeps(s: State, T: nat, due: map<CoRoutine, nat>, c: CoRoutine, priority: nat)
    requires Timely(s, T, due) && c !in s.priority && c >= 0
    ensures Timely(Create(s, c, priority), T, due) && Ready(Create(s, c, priority), c)
  {
    RegisteredPlaced(s, c, priority);
    MakeReadyKeeps(Registered(s, c, priority), c);
  }

  lemma NewIsNowhere(s: State, c: CoRoutine)
    requires Inv(s) && c !in s.priority
    ensures !Ready(s, c) && !Delayed(s, c)
  {
    ReadyOrDelayed(s, c);
  }

  lemma ScheduleKeeps(s: State, T: nat, due: map<CoRoutine, nat>, passed: nat)
    requires Timely(s, T, due)
    ensures Timely(Schedule(s, passed), T + passed, due)
  {
    hide Timely, Pick, CheckPending, Ticks;
    CheckPendingKeeps(s, T, due);
    var end := T + passed;
    TicksKeep(CheckPending(s), T, end, due);
    assert end - T == passed;
    PickKeeps(Ticks(CheckPending(s), passed), end, due);
  }

  /** The state prvInitialiseCoRoutineLists builds. */
  ghost function Initial(priorities: nat): State
  {
    State(seq(priorities, p => Ring([END], 0)), [], [], [], {}, 0, 0, 0, map[])
  }

  lemma InitialIsTimely(priorities: nat)
    requires priorities > 0
    ensures Timely(Initial(priorities), 0, map[])
  {
    var s := Initial(priorities);
    assert forall c :: !Ready(s, c) && !Delayed(s, c);
  }
}

/** The scheduler itself: the static variables of croutine.c and the functions that update them. */
module Croutine {
  import opened ListOrder
  import opened Sequences
  import opened CoRoutineState

  /** The ticks between two readings of the tick count. */
  function Passed(xTickCount: int, xLastTickCount: int): (ticks: nat)
    ensures ticks < WRAP
  {
    (xTickCount - xLastTickCount) % WRAP
  }

  class Scheduler {
    var pxReadyCoRoutineLists: seq<Ring>
    var pxDelayedCoRoutineList: seq<Delay>
    var pxOverflowDelayedCoRoutineList: seq<Delay>
    var xPendingReadyCoRoutineList: seq<CoRoutine>
    var onEventList: set<CoRoutine>
    var uxTopCoRoutineReadyPriority: nat
    var xCoRoutineTickCount: int
    var xLastTickCount: int
    var pxCurrentCoRoutine: CoRoutine
    var uxPriority: map<CoRoutine, nat>
    ghost var now: nat                   // true time
    ghost var due: map<CoRoutine, nat>   // true wake times

    ghost function View(): State
      reads this
    {
      State(pxReadyCoRoutineLists, pxDelayedCoRoutineList, pxOverflowDelayedCoRoutineList, xPendingReadyCoRoutineList,
            onEventList, uxTopCoRoutineReadyPriority, xCoRoutineTickCount, pxCurrentCoRoutine, uxPriority)
    }

    ghost predicate Valid()
      reads this
    {
      Timely(View(), now, due) && xLastTickCount == xCoRoutineTickCount
    }

    /** prvInitialiseCoRoutineLists, at the creation of the first co-routine. */
    constructor (priorities: nat)
      requires priorities > 0
      ensures Valid() && View() == Initial(priorities) && now == 0
      ensures |pxReadyCoRoutineLists| == priorities && forall c :: !Ready(View(), c) && !Delayed(View(), c)
    {
      pxReadyCoRoutineLists := seq(priorities, p => Ring([END], 0));
      pxDelayedCoRoutineList, pxOverflowDelayedCoRoutineList, xPendingReadyCoRoutineList := [], [], [];
      onEventList, uxTopCoRoutineReadyPriority := {}, 0;
      xCoRoutineTickCount, xLastTickCount, pxCurrentCoRoutine, uxPriority := 0, 0, 0, map[];
      now, due := 0, map[];
      new;
      InitialIsTimely(priorities);
      assert View() == Initial(priorities);
    }

    /** prvAddCoRoutineToReadyQueue. */
    method AddToReadyQueue(c: CoRoutine)
      requires Known(View(), c)
      modifies this`uxTopCoRoutineReadyPriority, this`pxReadyCoRoutineLists
      ensures View() == MakeReady(old(View()), c)
    {
      var p := uxPriority[c];
      if p > uxTopCoRoutineReadyPriority {
        uxTopCoRoutineReadyPriority := p;
      }
      pxReadyCoRoutineLists := pxReadyCoRoutineLists[p := pxReadyCoRoutineLists[p].Append(c)];
    }

    /** The writes of xCoRoutineCreate, once the control block is allocated. */
    method SetUp(c: CoRoutine, priority: nat)
      requires |pxReadyCoRoutineLists| > 0
      modifies this`uxPriority, this`pxCurrentCoRoutine, this`uxTopCoRoutineReadyPriority, this`pxReadyCoRoutineLists
      ensures View() == CoRoutineState.Create(old(View()), c, priority)
    {
      if uxPriority == map[] { pxCurrentCoRoutine := c; }
      var uxLimited := if priority >= |pxReadyCoRoutineLists| then |pxReadyCoRoutineLists| - 1 else priority;
      uxPriority := uxPriority[c := uxLimited];
      AddToReadyQueue(c);
    }

    /** xCoRoutineCreate. */
    method Create(c: CoRoutine, priority: nat)
      requires Valid() && c !in uxPriority && c >= 0
      modifies this`uxPriority, this`pxCurrentCoRoutine, this`uxTopCoRoutineReadyPriority, this`pxReadyCoRoutineLists
      ensures Valid() && View() == CoRoutineState.Create(old(View()), c, priority)
    {
      hide Timely, CoRoutineState.Create;
      TimelyIsInv(View(), now, due);
      CreateKeeps(View(), now, due, c, priority);
      CreateKeepsTick(View(), c, priority);
      SetUp(c, priority);
    }

    method LeaveReadyList()
      requires Known(View(), pxCurrentCoRoutine)
      modifies this`pxReadyCoRoutineLists
      ensures View() == Unready(old(View()))
    {
      var p := uxPriority[pxCurrentCoRoutine];
      pxReadyCoRoutineLists := pxReadyCoRoutineLists[p := pxReadyCoRoutineLists[p].Drop(pxCurrentCoRoutine)];
    }

    method ListDelayed(item: Delay)
      modifies this`pxDelayedCoRoutineList, this`pxOverflowDelayedCoRoutineList
      ensures View() == Listed(old(View()), item)
    {
      if item.wake < xCoRoutineTickCount {
        pxOverflowDelayedCoRoutineList := InsertDelay(pxOverflowDelayedCoRoutineList, item);
      } else {
        pxDelayedCoRoutineList := InsertDelay(pxDelayedCoRoutineList, item);
      }
    }

    method ListenIf(event: bool)
      modifies this`onEventList
      ensures View() == Listening(old(View()), event)
    {
      if event {
        onEventList := onEventList + {pxCurrentCoRoutine};
      }
    }

    /** The body of vCoRoutineAddToDelayedList. */
    method DelayCurrent(xTicksToDelay: nat, event: bool)
      requires Known(View(), pxCurrentCoRoutine)
      modifies this`pxReadyCoRoutineLists, this`pxDelayedCoRoutineList, this`pxOverflowDelayedCoRoutineList, this`onEventList
      ensures View() == AddToDelayed(old(View()), xTicksToDelay, event)
    {
      var xTimeToWake := (xCoRoutineTickCount + xTicksToDelay) % WRAP;
      LeaveReadyList();
      ListDelayed(Delay(xTimeToWake, pxCurrentCoRoutine));
      ListenIf(event);
    }

    /** vCoRoutineAddToDelayedList.  A delay of zero ticks may break the order of wake times. */
    method AddToDelayedList(xTicksToDelay: nat, event: bool)
      requires Valid() && xTicksToDelay < WRAP && Ready(View(), pxCurrentCoRoutine)
      modifies this`pxReadyCoRoutineLists, this`pxDelayedCoRoutineList, this`pxOverflowDelayedCoRoutineList
      modifies this`onEventList, this`due
      ensures (xTicksToDelay > 0 ==> Valid()) && View() == AddToDelayed(old(View()), xTicksToDelay, event)
      ensures due == old(due[pxCurrentCoRoutine := now + xTicksToDelay])
    {
      hide Timely, AddToDelayed;
      if xTicksToDelay > 0 { DelayOnTime(View(), now, due, xTicksToDelay, event); }
      DelayKeepsTick(View(), xTicksToDelay, event);
      ghost var wishes := due[pxCurrentCoRoutine := now + xTicksToDelay];
      DelayCurrent(xTicksToDelay, event);
      due := wishes;
    }

    /** The body of the loop of prvCheckPendingReadyList. */
    method ReadyFirstPending()
      requires xPendingReadyCoRoutineList != [] && Known(View(), xPendingReadyCoRoutineList[0])
      modifies this`xPendingReadyCoRoutineList, this`pxDelayedCoRoutineList, this`pxOverflowDelayedCoRoutineList
      modifies this`uxTopCoRoutineReadyPriority, this`pxReadyCoRoutineLists
      ensures View() == ReadyPending(old(View()))
    {
      var c := xPendingReadyCoRoutineList[0];
      xPendingReadyCoRoutineList := xPendingReadyCoRoutineList[1..];
      pxDelayedCoRoutineList := DropDelay(pxDelayedCoRoutineList, c);
      pxOverflowDelayedCoRoutineList := DropDelay(pxOverflowDelayedCoRoutineList, c);
      AddToReadyQueue(c);
    }

    /** prvCheckPendingReadyList. */
    method CheckPendingReadyList()
      requires Valid()
      modifies this
      ensures Valid() && View() == CheckPending(old(View())) && now == old(now) && due == old(due)
      ensures xLastTickCount == old(xLastTickCount)
    {
      hide Timely, ReadyPending;
      while xPendingReadyCoRoutineList != []
        invariant Valid() && now == old(now) && due == old(due) && xLastTickCount == old(xLastTickCount)
        invariant CheckPending(View()) == CheckPending(old(View()))
        decreases |xPendingReadyCoRoutineList|
      {
        PendingKeeps(View(), now, due);
        PendingIsKnown(View(), now, due);
        PendingShrinks(View());
        ReadyFirstPending();
      }
    }

    /** The body of the inner loop of prvCheckDelayedList. */
    method ExpireFirst()
      requires pxDelayedCoRoutineList != [] && Known(View(), pxDelayedCoRoutineList[0].who)
      modifies this`pxDelayedCoRoutineList, this`onEventList, this`xPendingReadyCoRoutineList
      modifies this`uxTopCoRoutineReadyPriority, this`pxReadyCoRoutineLists
      ensures View() == ExpireHead(old(View()))
    {
      var c := pxDelayedCoRoutineList[0].who;
      pxDelayedCoRoutineList := pxDelayedCoRoutineList[1..];
      if c in onEventList || c in xPendingReadyCoRoutineList {
        onEventList := onEventList - {c};
        xPendingReadyCoRoutineList := Without(xPendingReadyCoRoutineList, c);
      } else {
        WithoutMembers(xPendingReadyCoRoutineList, c);
      }
      AddToReadyQueue(c);
    }

    /** The inner loop of prvCheckDelayedList. */
    method ExpireDelayed()
      requires Inv(View()) && AtTick(View(), now, due)
      modifies this
      ensures View() == Expire(old(View())) && Timely(View(), now, due)
      ensures now == old(now) && due == old(due) && xLastTickCount == old(xLastTickCount)
    {
      ExpireKeeps(View(), now, due);
      while pxDelayedCoRoutineList != []
        invariant Inv(View()) && AtTick(View(), now, due)
        invariant Expire(View()) == Expire(old(View()))
        invariant now == old(now) && due == old(due) && xLastTickCount == old(xLastTickCount)
        decreases |pxDelayedCoRoutineList|
      {
        if xCoRoutineTickCount < pxDelayedCoRoutineList[0].wake {
          break;
        }
        ExpireHeadKeeps(View(), now, due);
        HeadShrinks(View());
        ExpireFirst();
      }
    }

    /** The head of the outer loop of prvCheckDelayedList. */
    method AdvanceTick()
      requires xCoRoutineTickCount >= 0
      modifies this`xCoRoutineTickCount, this`pxDelayedCoRoutineList, this`pxOverflowDelayedCoRoutineList
      ensures View() == Advance(old(View()))
      ensures xCoRoutineTickCount == (old(xCoRoutineTickCount) + 1) % 0x1_0000_0000
    {
      xCoRoutineTickCount := (xCoRoutineTickCount + 1) % WRAP;
      if xCoRoutineTickCount == 0 {
        pxDelayedCoRoutineList, pxOverflowDelayedCoRoutineList := pxOverflowDelayedCoRoutineList, pxDelayedCoRoutineList;
      }
    }

    /** The body of the outer loop of prvCheckDelayedList. */
    method ProcessTick()
      requires Timely(View(), now, due)
      modifies this
      ensures Timely(View(), now, due) && View() == Tick(old(View()))
      ensures now == old(now) + 1 && due == old(due) && xLastTickCount == old(xLastTickCount)
    {
      hide Timely, Expire, Advance;
      TimelyIsInv(View(), now, due);
      TickStarts(View(), now, due);
      AdvanceTick();
      now := now + 1;
      ExpireDelayed();
    }

    /** prvCheckDelayedList at kernel tick count xTickCount. */
    method CheckDelayedList(xTickCount: nat)
      requires Valid() && xTickCount < WRAP
      modifies this
      ensures Valid() && xCoRoutineTickCount == xTickCount && due == old(due)
      ensures var passed := Passed(xTickCount, old(xLastTickCount));
              View() == Ticks(old(View()), passed) && now == old(now) + passed
    {
      hide Timely, Tick;
      TimelyIsInv(View(), now, due);
      var xPassedTicks := Passed(xTickCount, xLastTickCount);
      ghost var passed := xPassedTicks;
      while xPassedTicks != 0
        invariant 0 <= xPassedTicks <= passed && now == old(now) + passed - xPassedTicks
        invariant Timely(View(), now, due) && due == old(due) && xLastTickCount == old(xLastTickCount)
        invariant Ticks(View(), xPassedTicks) == Ticks(old(View()), passed)
        decreases xPassedTicks
      {
        xPassedTicks := xPassedTicks - 1;
        ProcessTick();
      }
      TimelyIsInv(View(), now, due);
      xLastTickCount := xCoRoutineTickCount;
      SameTick(old(now), xTickCount);
    }

    /** vCoRoutineSchedule; ran says whether a co-routine is called. */
    method Schedule(xTickCount: nat) returns (ran: bool)
      requires Valid() && xTickCount < WRAP
      modifies this
      ensures Valid() && due == old(due)
      ensures var passed := Passed(xTickCount, old(xLastTickCount));
              View() == CoRoutineState.Schedule(old(View()), passed) && now == old(now) + passed
      ensures ran <==> exists c :: Ready(View(), c)
      ensures ran ==> Ready(View(), pxCurrentCoRoutine)
                      && forall c :: Ready(View(), c) ==> uxPriority[c] <= uxPriority[pxCurrentCoRoutine]
    {
      hide Timely, CheckPending, Pick;
      CheckPendingReadyList();
      CheckDelayedList(xTickCount);
      ran := PickNext();
    }

    /** The loop of vCoRoutineSchedule that lowers uxTopCoRoutineReadyPriority to a list in use. */
    method LowerTop() returns (ran: bool)
      requires uxTopCoRoutineReadyPriority < |pxReadyCoRoutineLists|
      requires forall p :: 0 <= p < |pxReadyCoRoutineLists| ==> |pxReadyCoRoutineLists[p].ring| > 0
      modifies this`uxTopCoRoutineReadyPriority
      ensures uxTopCoRoutineReadyPriority == Highest(pxReadyCoRoutineLists, old(uxTopCoRoutineReadyPriority))
      ensures ran <==> |pxReadyCoRoutineLists[uxTopCoRoutineReadyPriority].ring| > 1
    {
      ran := true;
      while ran && |pxReadyCoRoutineLists[uxTopCoRoutineReadyPriority].ring| == 1
        invariant uxTopCoRoutineReadyPriority <= old(uxTopCoRoutineReadyPriority)
        invariant Highest(pxReadyCoRoutineLists, uxTopCoRoutineReadyPriority)
                  == Highest(pxReadyCoRoutineLists, old(uxTopCoRoutineReadyPriority))
        invariant !ran ==> uxTopCoRoutineReadyPriority == 0 && |pxReadyCoRoutineLists[0].ring| == 1
        decreases ran, uxTopCoRoutineReadyPriority
      {
        if uxTopCoRoutineReadyPriority == 0 {
          ran := false;
        } else {
          uxTopCoRoutineReadyPriority := uxTopCoRoutineReadyPriority - 1;
        }
      }
    }

    /** listGET_OWNER_OF_NEXT_ENTRY on the list found, if it holds anything. */
    method TakeNext() returns (ran: bool)
      requires uxTopCoRoutineReadyPriority < |pxReadyCoRoutineLists|
      requires forall p :: 0 <= p < |pxReadyCoRoutineLists| ==>
                 pxReadyCoRoutineLists[p].pos < |pxReadyCoRoutineLists[p].ring|
      modifies this`uxTopCoRoutineReadyPriority, this`pxReadyCoRoutineLists, this`pxCurrentCoRoutine
      ensures View() == Pick(old(View()))
      ensures ran <==> |pxReadyCoRoutineLists[uxTopCoRoutineReadyPriority].ring| > 1
    {
      ran := LowerTop();
      if ran {
        var r := pxReadyCoRoutineLists[uxTopCoRoutineReadyPriority];
        var pos := NextPos(|r.ring|, r.pos);
        pxReadyCoRoutineLists := pxReadyCoRoutineLists[uxTopCoRoutineReadyPriority := Ring(r.ring, pos)];
        pxCurrentCoRoutine := r.ring[pos];
      }
    }

    /** The end of vCoRoutineSchedule. */
    method PickNext() returns (ran: bool)
      requires Valid()
      modifies this`uxTopCoRoutineReadyPriority, this`pxReadyCoRoutineLists, this`pxCurrentCoRoutine
      ensures Valid() && View() == Pick(old(View()))
      ensures ran <==> exists c :: Ready(View(), c)
      ensures ran ==> Ready(View(), pxCurrentCoRoutine)
                      && forall c :: Ready(View(), c) ==> uxPriority[c] <= uxPriority[pxCurrentCoRoutine]
    {
      TimelyIsInv(View(), now, due);
      hide Timely;
      PickKeeps(View(), now, due);
      RunsHighest(View());
      ran := TakeNext();
      InUseMeansReady(View());
    }

    /** xCoRoutineRemoveFromEventList, for the co-routine at the head of an event list; the result
        says whether it has at least the running co-routine's priority.  An interrupt may call it in the
        middle of a schedule. */
    method RemoveFromEventList(pxUnblocked: CoRoutine) returns (xReturn: bool)
      requires Inv(View()) && pxUnblocked in onEventList && pxCurrentCoRoutine in uxPriority
      modifies this`onEventList, this`xPendingReadyCoRoutineList
      ensures View() == Unblock(old(View()), pxUnblocked) && Inv(View())
      ensures old(Valid()) ==> Valid()
      ensures old(AtTick(View(), now, due)) ==> AtTick(View(), now, due)
      ensures pxUnblocked in uxPriority && xReturn == (uxPriority[pxUnblocked] >= uxPriority[pxCurrentCoRoutine])
    {
      UnblockKeeps(View(), pxUnblocked);
      ReadyOrDelayed(View(), pxUnblocked);
      onEventList := onEventList - {pxUnblocked};
      xPendingReadyCoRoutineList := xPendingReadyCoRoutineList + [pxUnblocked];
      xReturn := uxPriority[pxUnblocked] >= uxPriority[pxCurrentCoRoutine];
    }
  }

  lemma TickStarts(s: State, T: nat, due: map<CoRoutine, nat>)
    requires Timely(s, T, due)
    ensures Inv(Advance(s)) && AtTick(Advance(s), T + 1, due) && Tick(s) == Expire(Advance(s)) && s.tick >= 0
  {
    AdvanceOnTime(s, T, due);
  }

  lemma TimelyIsInv(s: State, T: nat, due: map<CoRoutine, nat>)
    requires Timely(s, T, due)
    ensures Inv(s) && s.tick == T % WRAP && |s.ready| > 0
  {
  }

  lemma PendingIsKnown(s: State, T: nat, due: map<CoRoutine, nat>)
    requires Timely(s, T, due) && s.pending != []
    ensures Known(s, s.pending[0])
  {
    assert s.pending[0] in s.pending;
    ReadyOrDelayed(s, s.pending[0]);
  }

  /** After a pick the top list is in use exactly when any co-routine is ready. */
  lemma InUseMeansReady(s: State)
    requires ReadyOk(s)
    ensures |s.ready[s.top].ring| > 1 ==> Ready(s, s.ready[s.top].ring[1])
  {
    if |s.ready[s.top].ring| > 1 { MemberPriority(s, s.top, s.ready[s.top].ring[1]); }
  }

  lemma DelayKeepsTick(s: State, d: nat, event: bool)
    ensures AddToDelayed(s, d, event).tick == s.tick
  {
  }

  lemma CreateKeepsTick(s: State, c: CoRoutine, priority: nat)
    ensures Create(s, c, priority).tick == s.tick
  {
  }

  lemma HeadShrinks(s: State)
    requires s.delayed != []
    ensures ExpireHead(s).delayed == s.delayed[1..]
  {
  }

  lemma SameTick(T: nat, tick: nat)
    requires tick < WRAP
    ensures (T + (tick - T % WRAP) % WRAP) % WRAP == tick
  {
  }
}
