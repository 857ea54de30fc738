/** The active timers of furi/core/event_loop_timer.c in true time, a tick count that never wraps,
    and the effect of start, stop and free requests on them. */
module TimerOrder {

  type Timer = nat  // the address of a FuriEventLoopTimer

  /** A running timer: when it was started and how long it runs. */
  datatype Entry = Entry(timer: Timer, start: nat, interval: nat)
  {
    function Deadline(): nat { start + interval }
  }

  ghost predicate Sorted(list: seq<Entry>) {
    forall i, j :: 0 <= i < j < |list| ==> list[i].Deadline() <= list[j].Deadline()
  }

  ghost predicate DistinctTimers(list: seq<Entry>) {
    forall i, j :: 0 <= i < j < |list| ==> list[i].timer != list[j].timer
  }

  /** In deadline order, behind the timers with the same deadline. */
  ghost function Insert(list: seq<Entry>, e: Entry): seq<Entry> {
    if list == [] || e.Deadline() < list[0].Deadline() then [e] + list
    else [list[0]] + Insert(list[1..], e)
  }

  ghost function WithoutTimer(list: seq<Entry>, t: Timer): seq<Entry> {
    if list == [] then []
    else (if list[0].timer == t then [] else [list[0]]) + WithoutTimer(list[1..], t)
  }

  /** A request together with the interval it asks for (0 where it does not matter). */
  datatype Request =
    | Start(timer: Timer, interval: nat)
    | Stop(timer: Timer)
    | Free(timer: Timer)

  /** A request carried out at time now. */
  ghost function Apply(list: seq<Entry>, r: Request, now: nat): seq<Entry> {
    match r
    case Start(t, interval) => Insert(WithoutTimer(list, t), Entry(t, now, interval))
    case Stop(t) => WithoutTimer(list, t)
    case Free(t) => WithoutTimer(list, t)
  }

  ghost function ApplyAll(list: seq<Entry>, rs: seq<Request>, now: nat): seq<Entry>
    decreases |rs|
  {
    if rs == [] then list else ApplyAll(Apply(list, rs[0], now), rs[1..], now)
  }

  ghost function WithoutRequest(rs: seq<Request>, t: Timer): seq<Request> {
    if rs == [] then []
    else (if rs[0].timer == t then [] else [rs[0]]) + WithoutRequest(rs[1..], t)
  }

  /** The queue keeps one request per timer: a new one replaces the old and goes to the back. */
  ghost function Enqueue(rs: seq<Request>, r: Request): seq<Request> {
    WithoutRequest(rs, r.timer) + [r]
  }

  /** The queue after a history of requests. */
  ghost function Collapse(history: seq<Request>): seq<Request>
    decreases |history|
  {
    if history == [] then []
    else Enqueue(Collapse(history[..|history| - 1]), history[|history| - 1])
  }

  // ---------------------------------------------------------------- order

  lemma {:induction false} WithoutTimerMembers(list: seq<Entry>, t: Timer)
    ensures forall e :: e in WithoutTimer(list, t) <==> e in list && e.timer != t
    ensures Sorted(list) ==> Sorted(WithoutTimer(list, t))
    ensures DistinctTimers(list) ==> DistinctTimers(WithoutTimer(list, t))
  {
    if list != [] {
      WithoutTimerMembers(list[1..], t);
      assert forall e :: e in list <==> e == list[0] || e in list[1..];
      SortedTail(list);
      DistinctTail(list);
      if list[0].timer != t {
        if Sorted(list) { SortedCons(list[0], WithoutTimer(list[1..], t)); }
        if DistinctTimers(list) { DistinctCons(list[0], WithoutTimer(list[1..], t)); }
      } else {
        assert [] + WithoutTimer(list[1..], t) == WithoutTimer(list[1..], t);
      }
    }
  }

  lemma SortedTail(list: seq<Entry>)
    requires list != []
    ensures Sorted(list) ==> Sorted(list[1..]) && forall e :: e in list[1..] ==> list[0].Deadline() <= e.Deadline()
  {
  }

  lemma SortedCons(x: Entry, list: seq<Entry>)
    requires Sorted(list) && forall e :: e in list ==> x.Deadline() <= e.Deadline()
    ensures Sorted([x] + list)
  {
  }

  lemma DistinctTail(list: seq<Entry>)
    requires list != []
    ensures DistinctTimers(list) ==> DistinctTimers(list[1..]) && forall e :: e in list[1..] ==> list[0].timer != e.timer
  {
  }

  lemma DistinctCons(x: Entry, list: seq<Entry>)
    requires DistinctTimers(list) && forall e :: e in list ==> x.timer != e.timer
    ensures DistinctTimers([x] + list)
  {
  }

  lemma {:induction false} InsertMembers(list: seq<Entry>, e: Entry)
    ensures forall x :: x in Insert(list, e) <==> x in list || x == e
    ensures Sorted(list) ==> Sorted(Insert(list, e))
    ensures DistinctTimers(list) && (forall x :: x in list ==> x.timer != e.timer) ==> DistinctTimers(Insert(list, e))
  {
    if list != [] {
      assert forall x :: x in list <==> x == list[0] || x in list[1..];
      SortedTail(list);
      DistinctTail(list);
      if e.Deadline() < list[0].Deadline() {
        if Sorted(list) { SortedCons(e, list); }
        if DistinctTimers(list) && (forall x :: x in list ==> x.timer != e.timer) { DistinctCons(e, list); }
      } else {
        InsertMembers(list[1..], e);
        if Sorted(list) { SortedCons(list[0], Insert(list[1..], e)); }
        if DistinctTimers(list) && (forall x :: x in list ==> x.timer != e.timer) {
          DistinctCons(list[0], Insert(list[1..], e));
        }
      }
    }
  }

  lemma ApplyKeepsSorted(list: seq<Entry>, r: Request, now: nat)
    requires Sorted(list) && DistinctTimers(list)
    ensures Sorted(Apply(list, r, now)) && DistinctTimers(Apply(list, r, now))
  {
    WithoutTimerMembers(list, r.timer);
    if r.Start? { InsertMembers(WithoutTimer(list, r.timer), Entry(r.timer, now, r.interval)); }
  }

  // ---------------------------------------------------------------- the queue collapses soundly

  lemma {:induction false} WithoutTwice(list: seq<Entry>, t: Timer, u: Timer)
    ensures WithoutTimer(WithoutTimer(list, t), u) == WithoutTimer(WithoutTimer(list, u), t)
    ensures t == u ==> WithoutTimer(WithoutTimer(list, t), u) == WithoutTimer(list, t)
  {
    if list != [] {
      WithoutTwice(list[1..], t, u);
      assert list == [list[0]] + list[1..];
      WithoutTimerCons(list[0], list[1..], t);
      WithoutTimerCons(list[0], list[1..], u);
      hide WithoutTimer;
      WithoutTimerCons(list[0], WithoutTimer(list[1..], t), u);
      WithoutTimerCons(list[0], WithoutTimer(list[1..], u), t);
      assert [] + WithoutTimer(list[1..], t) == WithoutTimer(list[1..], t);
      assert [] + WithoutTimer(list[1..], u) == WithoutTimer(list[1..], u);
    }
  }

  lemma WithoutTimerCons(x: Entry, list: seq<Entry>, t: Timer)
    ensures WithoutTimer([x] + list, t) == (if x.timer == t then [] else [x]) + WithoutTimer(list, t)
  {
    assert ([x] + list)[1..] == list;
  }

  lemma {:induction false} InsertThenWithout(list: seq<Entry>, e: Entry, t: Timer)
    requires Sorted(list)
    ensures e.timer != t ==> WithoutTimer(Insert(list, e), t) == Insert(WithoutTimer(list, t), e)
    ensures e.timer == t ==> WithoutTimer(Insert(list, e), t) == WithoutTimer(list, t)
  {
    if list == [] {
      WithoutTimerCons(e, [], t);
    } else if e.Deadline() < list[0].Deadline() {
      WithoutTimerCons(e, list, t);
      AllLater(list, e, t);
      InsertFirst(WithoutTimer(list, t), e);
    } else {
      SortedTail(list);
      InsertThenWithout(list[1..], e, t);
      InsertBehindHead(list[0], list[1..], e, t);
      assert list == [list[0]] + list[1..];
    }
  }

  lemma AllLater(list: seq<Entry>, e: Entry, t: Timer)
    requires Sorted(list) && list != [] && e.Deadline() < list[0].Deadline()
    ensures forall x :: x in WithoutTimer(list, t) ==> e.Deadline() < x.Deadline()
  {
    WithoutTimerMembers(list, t);
    SortedTail(list);
    assert forall x :: x in list <==> x == list[0] || x in list[1..];
  }

  lemma InsertBehindHead(x: Entry, list: seq<Entry>, e: Entry, t: Timer)
    requires x.Deadline() <= e.Deadline()
    requires e.timer != t ==> WithoutTimer(Insert(list, e), t) == Insert(WithoutTimer(list, t), e)
    requires e.timer == t ==> WithoutTimer(Insert(list, e), t) == WithoutTimer(list, t)
    ensures e.timer != t ==> WithoutTimer(Insert([x] + list, e), t) == Insert(WithoutTimer([x] + list, t), e)
    ensures e.timer == t ==> WithoutTimer(Insert([x] + list, e), t) == WithoutTimer([x] + list, t)
  {
    InsertCons(x, list, e);
    WithoutTimerCons(x, Insert(list, e), t);
    WithoutTimerCons(x, list, t);
    InsertCons(x, WithoutTimer(list, t), e);
    assert [] + WithoutTimer(Insert(list, e), t) == WithoutTimer(Insert(list, e), t);
  }

  lemma InsertFirst(list: seq<Entry>, e: Entry)
    requires forall x :: x in list ==> e.Deadline() < x.Deadline()
    ensures Insert(list, e) == [e] + list
  {
    if list != [] { assert list[0] in list; }
  }

  lemma InsertCons(x: Entry, list: seq<Entry>, e: Entry)
    requires x.Deadline() <= e.Deadline()
    ensures Insert([x] + list, e) == [x] + Insert(list, e)
    ensures Insert([] + list, e) == Insert(list, e)
  {
    assert ([x] + list)[1..] == list && [] + list == list;
  }

  /** Taking a timer out after a request for another one, or before it, makes no difference; after a
      request for itself the request leaves no trace. */
  lemma ApplyThenWithout(list: seq<Entry>, r: Request, now: nat, t: Timer)
    requires Sorted(list)
    ensures WithoutTimer(Apply(list, r, now), t) ==
            if r.timer == t then WithoutTimer(list, t) else Apply(WithoutTimer(list, t), r, now)
  {
    WithoutTwice(list, r.timer, t);
    WithoutTimerMembers(list, r.timer);
    if r.Start? { InsertThenWithout(WithoutTimer(list, r.timer), Entry(r.timer, now, r.interval), t); }
  }

  lemma {:induction false} ApplyAllThenWithout(list: seq<Entry>, rs: seq<Request>, now: nat, t: Timer)
    requires Sorted(list) && DistinctTimers(list)
    ensures WithoutTimer(ApplyAll(list, rs, now), t) == ApplyAll(WithoutTimer(list, t), WithoutRequest(rs, t), now)
    decreases |rs|
  {
    if rs != [] {
      ApplyKeepsSorted(list, rs[0], now);
      ApplyAllThenWithout(Apply(list, rs[0], now), rs[1..], now, t);
      ApplyThenWithout(list, rs[0], now, t);
      if rs[0].timer == t {
        assert [] + WithoutRequest(rs[1..], t) == WithoutRequest(rs[1..], t);
      } else {
        assert ([rs[0]] + WithoutRequest(rs[1..], t))[1..] == WithoutRequest(rs[1..], t);
      }
    }
  }

  lemma {:induction false} ApplyAllSnoc(list: seq<Entry>, rs: seq<Request>, r: Request, now: nat)
    ensures ApplyAll(list, rs + [r], now) == Apply(ApplyAll(list, rs, now), r, now)
    decreases |rs|
  {
    if rs == [] {
      assert [] + [r] == [r] && [r][1..] == [];
    } else {
      assert (rs + [r])[1..] == rs[1..] + [r];
      ApplyAllSnoc(Apply(list, rs[0], now), rs[1..], r, now);
    }
  }

  /** Keeping only each timer's last request, in the order of the last requests, and draining the
      queue at time now gives the same running timers, intervals, start times and list order as
      carrying out the whole history one by one at that time. */
  lemma {:induction false} CollapseIsSound(list: seq<Entry>, history: seq<Request>, now: nat)
    requires Sorted(list) && DistinctTimers(list)
    ensures ApplyAll(list, Collapse(history), now) == ApplyAll(list, history, now)
    decreases |history|
  {
    if history != [] {
      var before, r := history[..|history| - 1], history[|history| - 1];
      assert history == before + [r];
      assert Collapse(history) == Enqueue(Collapse(before), r);
      hide Collapse, Apply, ApplyAll, Enqueue, Sorted, DistinctTimers;
      CollapseIsSound(list, before, now);
      ApplyAllSnoc(list, before, r, now);
      EnqueueIsSound(list, Collapse(before), r, now);
    }
  }

  /** Dropping the timer's older request makes no difference when the new one is carried out. */
  lemma EnqueueIsSound(list: seq<Entry>, queue: seq<Request>, r: Request, now: nat)
    requires Sorted(list) && DistinctTimers(list)
    ensures ApplyAll(list, Enqueue(queue, r), now) == Apply(ApplyAll(list, queue, now), r, now)
  {
    var others := WithoutRequest(queue, r.timer);
    hide Apply, ApplyAll, WithoutTimer, WithoutRequest, Sorted, DistinctTimers;
    ApplyAllSnoc(list, others, r, now);
    ApplyAllThenWithout(list, queue, now, r.timer);
    ApplyAllThenWithout(list, others, now, r.timer);
    WithoutRequestTwice(queue, r.timer);
    ApplyReads(ApplyAll(list, queue, now), ApplyAll(list, others, now), r, now);
  }

  lemma {:induction false} WithoutRequestTwice(rs: seq<Request>, t: Timer)
    ensures WithoutRequest(WithoutRequest(rs, t), t) == WithoutRequest(rs, t)
  {
    if rs != [] {
      WithoutRequestTwice(rs[1..], t);
      if rs[0].timer == t {
        assert [] + WithoutRequest(rs[1..], t) == WithoutRequest(rs[1..], t);
      } else {
        assert ([rs[0]] + WithoutRequest(rs[1..], t))[1..] == WithoutRequest(rs[1..], t);
      }
    }
  }

  /** A request depends only on the other timers. */
  lemma ApplyReads(a: seq<Entry>, b: seq<Entry>, r: Request, now: nat)
    requires WithoutTimer(a, r.timer) == WithoutTimer(b, r.timer)
    ensures Apply(a, r, now) == Apply(b, r, now)
  {
  }

  // ---------------------------------------------------------------- periodic timers

  /** The start time a periodic timer gets when serviced at time now. */
  ghost function NextStart(start: nat, interval: nat, now: nat): nat
    requires interval > 0 && start <= now
  {
    start + interval * ((now - start) / interval)
  }

  /** Servicing keeps the phase, leaves the next deadline in (now, now + interval], and the product
      interval * num_events fits the 32 bits of its operands when the elapsed time does. */
  lemma NextStartInPhase(start: nat, interval: nat, now: nat)
    requires interval > 0 && start <= now
    ensures var next := NextStart(start, interval, now);
            && start <= next <= now < next + interval <= now + interval
            && next % interval == start % interval
            && next - start <= now - start
  {
    var q := (now - start) / interval;
    DivisionBounds(now - start, interval);
    SamePhase(start, interval, q);
  }

  lemma DivisionBounds(x: nat, d: nat)
    requires d > 0
    ensures d * (x / d) <= x < d * (x / d) + d
  {
  }

  lemma {:induction false} SamePhase(start: nat, interval: nat, q: nat)
    requires interval > 0
    ensures (start + interval * q) % interval == start % interval
    decreases q
  {
    if q > 0 {
      SamePhase(start, interval, q - 1);
      assert start + interval * q == start + interval * (q - 1) + interval;
      AddOnce(start + interval * (q - 1), interval);
    }
  }

  lemma AddOnce(x: nat, d: nat)
    requires d > 0
    ensures (x + d) % d == x % d
  {
    var r, q, q' := x % d, x / d, (x + d) / d;
    assert x == d * q + r && x + d == d * q' + (x + d) % d;
    assert d * (q + 1 - q') == (x + d) % d - r;
    Multiples(d, q + 1 - q');
  }

  lemma {:induction false} Multiples(d: int, k: int)
    requires d > 0
    ensures k > 0 ==> d * k >= d
    ensures k < 0 ==> d * k <= -d
    decreases if k < 0 then -k else k
  {
    if k > 1 { Multiples(d, k - 1); } else if k < -1 { Multiples(d, k + 1); }
  }

  /** A periodic timer never drifts, however late each service was. */
  lemma {:induction false} NeverDrifts(start: nat, interval: nat, services: seq<nat>)
    requires interval > 0
    requires forall i :: 0 <= i < |services| ==> start <= services[i]
    requires forall i, j :: 0 <= i < j < |services| ==> services[i] <= services[j]
    ensures Serviced(start, interval, services) % interval == start % interval
    ensures services != [] ==>
              var last := services[|services| - 1];
              last < Serviced(start, interval, services) + interval <= last + interval
    decreases |services|
  {
    if services != [] {
      NextStartInPhase(start, interval, services[0]);
      NeverDrifts(NextStart(start, interval, services[0]), interval, services[1..]);
      if |services| == 1 { assert services[1..] == []; }
    }
  }

  ghost function Serviced(start: nat, interval: nat, services: seq<nat>): nat
    requires interval > 0
    requires forall i :: 0 <= i < |services| ==> start <= services[i]
    requires forall i, j :: 0 <= i < j < |services| ==> services[i] <= services[j]
    decreases |services|
  {
    if services == [] then start
    else
      NextStartInPhase(start, interval, services[0]);
      Serviced(NextStart(start, interval, services[0]), interval, services[1..])
  }

  // ---------------------------------------------------------------- what draining leaves

  /** The last request for a timer. */
  ghost function LastFor(rs: seq<Request>, t: Timer): seq<Request>
    decreases |rs|
  {
    if rs == [] then []
    else if LastFor(rs[1..], t) != [] then LastFor(rs[1..], t)
    else if rs[0].timer == t then [rs[0]] else []
  }

  /** After draining at time now exactly these timers run: those last asked to start, from now on and with the
      interval asked for, and those running before of which nothing was asked, as they were. */
  lemma {:induction false} DrainObeysLastRequest(list: seq<Entry>, rs: seq<Request>, now: nat, e: Entry)
    ensures e in ApplyAll(list, rs, now) <==>
              var last := LastFor(rs, e.timer);
              if last == [] then e in list else last[0].Start? && e.start == now && e.interval == last[0].interval
    decreases |rs|
  {
    if rs != [] {
      ApplyMembers(list, rs[0], now);
      LastIsFor(rs[1..], e.timer);
      DrainObeysLastRequest(Apply(list, rs[0], now), rs[1..], now, e);
    }
  }

  lemma {:induction false} LastIsFor(rs: seq<Request>, t: Timer)
    ensures |LastFor(rs, t)| <= 1 && forall r :: r in LastFor(rs, t) ==> r.timer == t && r in rs
    decreases |rs|
  {
    if rs != [] { LastIsFor(rs[1..], t); }
  }

  /** A service touches the timer that is due first and no other: that one is gone, or, when periodic, started
      again by whole intervals. */
  lemma ServiceTouchesOne(list: seq<Entry>, periodic: set<Timer>, now: nat, e: Entry)
    requires Started(list, now) && DistinctTimers(list) && list != [] && list[0].start + list[0].interval <= now
    ensures var front := list[0];
            e in Service(list, periodic, now) <==>
            || (e in list && e.timer != front.timer)
            || (front.timer in periodic && front.interval > 0 && front.start <= now
                && e == Entry(front.timer, NextStart(front.start, front.interval, now), front.interval))
  {
    var front := list[0];
    assert front in list;
    DistinctTail(list);
    assert e in list <==> e == front || e in list[1..];
    InsertMembers(list[1..], front.(start := if front.interval > 0 then NextStart(front.start, front.interval, now) else 0));
  }

  /** Before the first deadline a service changes nothing. */
  lemma ServiceWaits(list: seq<Entry>, periodic: set<Timer>, now: nat)
    requires Started(list, now) && (list != [] ==> now < list[0].start + list[0].interval)
    ensures Service(list, periodic, now) == list
  {
  }

  // ---------------------------------------------------------------- services and division by zero

  ghost predicate FrontDue(list: seq<Entry>, now: nat) { list != [] && list[0].Deadline() <= now }

  ghost predicate IsZero(e: Entry, periodic: set<Timer>) { e.timer in periodic && e.interval == 0 }

  /** The service at time now computes how many intervals of length 0 have passed. */
  ghost predicate DividesNow(list: seq<Entry>, periodic: set<Timer>, now: nat) {
    FrontDue(list, now) && IsZero(list[0], periodic)
  }

  ghost predicate Started(list: seq<Entry>, now: nat) {
    forall e :: e in list ==> e.start <= now
  }

  /** A timer that fired goes back on the list at its next deadline, if it is periodic. */
  ghost function Refire(rest: seq<Entry>, e: Entry, periodic: bool, now: nat): seq<Entry>
    requires e.start <= now
  {
    if periodic && e.interval > 0 then Insert(rest, e.(start := NextStart(e.start, e.interval, now))) else rest
  }

  /** The running timers after one call of furi_event_loop_process_expired_timers. */
  ghost function Service(list: seq<Entry>, periodic: set<Timer>, now: nat): seq<Entry>
    requires Started(list, now)
  {
    if FrontDue(list, now) then assert list[0] in list; Refire(list[1..], list[0], list[0].timer in periodic, now) else list
  }

  ghost predicate Ascending(now: nat, times: seq<nat>)
    decreases |times|
  {
    times == [] || (now <= times[0] && Ascending(times[0], times[1..]))
  }

  /** Of successive services at these times, one divides by zero. */
  ghost predicate Divides(list: seq<Entry>, periodic: set<Timer>, now: nat, times: seq<nat>)
    requires Started(list, now) && Ascending(now, times)
    decreases |times|
  {
    times != []
    && (DividesNow(list, periodic, times[0])
        || (ServiceStarted(list, periodic, times[0]);
            Divides(Service(list, periodic, times[0]), periodic, times[0], times[1..])))
  }

  lemma ServiceStarted(list: seq<Entry>, periodic: set<Timer>, now: nat)
    requires Started(list, now)
    ensures Started(Service(list, periodic, now), now)
    ensures Sorted(list) ==> Sorted(Service(list, periodic, now))
  {
    if FrontDue(list, now) {
      SortedTail(list);
      assert forall e :: e in list[1..] ==> e in list;
      if list[0].timer in periodic && list[0].interval > 0 {
        assert list[0] in list;
        NextStartInPhase(list[0].start, list[0].interval, now);
        InsertMembers(list[1..], list[0].(start := NextStart(list[0].start, list[0].interval, now)));
      }
    }
  }

  ghost predicate HasZero(list: seq<Entry>, periodic: set<Timer>) {
    exists e :: e in list && IsZero(e, periodic)
  }

  lemma {:induction false} NoZeroNoDivision(list: seq<Entry>, periodic: set<Timer>, now: nat, times: seq<nat>)
    requires Started(list, now) && Ascending(now, times) && !HasZero(list, periodic)
    ensures !Divides(list, periodic, now, times)
    decreases |times|
  {
    if times != [] {
      var list' := Service(list, periodic, times[0]);
      ServiceStarted(list, periodic, times[0]);
      assert !HasZero(list', periodic) by { ServiceMakesNoZero(list, periodic, times[0]); }
      if list != [] { assert list[0] in list; }
      NoZeroNoDivision(list', periodic, times[0], times[1..]);
    }
  }

  lemma ServiceMakesNoZero(list: seq<Entry>, periodic: set<Timer>, now: nat)
    requires Started(list, now) && !HasZero(list, periodic)
    ensures !HasZero(Service(list, periodic, now), periodic)
  {
    if FrontDue(list, now) {
      assert forall e :: e in list[1..] ==> e in list;
      if list[0].timer in periodic && list[0].interval > 0 {
        assert list[0] in list;
        InsertMembers(list[1..], list[0].(start := NextStart(list[0].start, list[0].interval, now)));
      }
    }
  }

  lemma {:induction false} InsertBehind(list: seq<Entry>, e: Entry, k: nat)
    requires Sorted(list) && k < |list| && list[k].Deadline() <= e.Deadline()
    ensures k < |Insert(list, e)| && Insert(list, e)[k] == list[k]
  {
    SortedTail(list);
    if k > 0 {
      assert list[k] in list[1..];
      InsertBehind(list[1..], e, k - 1);
    }
  }

  /** A periodic timer of interval 0 is always due; the timers before it are due with it, and each service
      takes one of them away. */
  lemma {:induction false} ZeroComesUp(list: seq<Entry>, periodic: set<Timer>, now: nat, times: seq<nat>, k: nat)
    requires Sorted(list) && Started(list, now) && Ascending(now, times)
    requires k < |list| && k < |times| && IsZero(list[k], periodic)
    ensures Divides(list, periodic, now, times)
    decreases |times|
  {
    var time := times[0];
    assert list[k] in list && list[0] in list;
    assert list[0].Deadline() <= list[k].Deadline() <= time;
    if !DividesNow(list, periodic, time) {
      ServiceStarted(list, periodic, time);
      if list[0].timer in periodic {
        var e := list[0].(start := NextStart(list[0].start, list[0].interval, time));
        NextStartInPhase(list[0].start, list[0].interval, time);
        SortedTail(list);
        InsertBehind(list[1..], e, k - 1);
      }
      ZeroComesUp(Service(list, periodic, time), periodic, time, times[1..], k - 1);
    }
  }

  /** Whenever they happen, as many services as timers are running divide by zero if and only if a periodic
      timer of interval 0 is running. */
  lemma ServicesDivideExactly(list: seq<Entry>, periodic: set<Timer>, now: nat, times: seq<nat>)
    requires Sorted(list) && Started(list, now) && Ascending(now, times) && |list| <= |times|
    ensures Divides(list, periodic, now, times) <==> HasZero(list, periodic)
  {
    if HasZero(list, periodic) {
      var e :| e in list && IsZero(e, periodic);
      var k :| 0 <= k < |list| && list[k] == e;
      ZeroComesUp(list, periodic, now, times, k);
    } else {
      NoZeroNoDivision(list, periodic, now, times);
    }
  }

  ghost predicate AsksForZero(r: Request, periodic: set<Timer>) {
    r.Start? && r.interval == 0 && r.timer in periodic
  }

  ghost predicate DistinctRequests(rs: seq<Request>) {
    forall i, j :: 0 <= i < j < |rs| ==> rs[i].timer != rs[j].timer
  }

  ghost predicate Asked(rs: seq<Request>, t: Timer) {
    exists r :: r in rs && r.timer == t
  }

  /** After the queue is drained a periodic timer of interval 0 runs exactly when the queue asked for one,
      or one ran before for which nothing was asked. */
  lemma {:induction false} DrainLeavesZero(list: seq<Entry>, rs: seq<Request>, periodic: set<Timer>, now: nat)
    requires DistinctRequests(rs)
    ensures HasZero(ApplyAll(list, rs, now), periodic) <==>
            || (exists r :: r in rs && AsksForZero(r, periodic))
            || (exists e :: e in list && IsZero(e, periodic) && !Asked(rs, e.timer))
    decreases |rs|
  {
    if rs != [] {
      var r, rest := rs[0], rs[1..];
      DrainLeavesZero(Apply(list, r, now), rest, periodic, now);
      ApplyMembers(list, r, now);
      assert forall q :: q in rs <==> q == r || q in rest;
      assert forall q :: q in rest ==> q.timer != r.timer;
    }
  }

  lemma ApplyMembers(list: seq<Entry>, r: Request, now: nat)
    ensures forall e :: e in Apply(list, r, now) <==>
              (e in list && e.timer != r.timer) || (r.Start? && e == Entry(r.timer, now, r.interval))
  {
    WithoutTimerMembers(list, r.timer);
    if r.Start? { InsertMembers(WithoutTimer(list, r.timer), Entry(r.timer, now, r.interval)); }
  }

  lemma {:induction false} DrainStarted(list: seq<Entry>, rs: seq<Request>, now: nat)
    requires Sorted(list) && DistinctTimers(list) && Started(list, now)
    ensures var after := ApplyAll(list, rs, now); Sorted(after) && DistinctTimers(after) && Started(after, now)
    decreases |rs|
  {
    if rs != [] {
      ApplyKeepsSorted(list, rs[0], now);
      ApplyMembers(list, rs[0], now);
      DrainStarted(Apply(list, rs[0], now), rs[1..], now);
    }
  }

  /** Division by zero is a matter of the requests: when no periodic timer of interval 0 is running, the
      queue is drained and all running timers are serviced, whenever that is, a service divides by zero if
      and only if the queue asked for a periodic timer to be started with interval 0. */
  lemma DividesByZeroExactly(list: seq<Entry>, rs: seq<Request>, periodic: set<Timer>, now: nat, times: seq<nat>)
    requires Sorted(list) && DistinctTimers(list) && Started(list, now) && !HasZero(list, periodic)
    requires DistinctRequests(rs) && Ascending(now, times) && |ApplyAll(list, rs, now)| <= |times|
    ensures Started(ApplyAll(list, rs, now), now)
    ensures Divides(ApplyAll(list, rs, now), periodic, now, times) <==> exists r :: r in rs && AsksForZero(r, periodic)
  {
    DrainStarted(list, rs, now);
    DrainLeavesZero(list, rs, periodic, now);
    ServicesDivideExactly(ApplyAll(list, rs, now), periodic, now, times);
  }
}

/** The timer code itself.  Timer structures are the values of a map from their addresses; the
    intrusive lists are sequences of addresses. */
module EventLoopTimer {
  import opened Sequences
  import opened TimerOrder

  const WRAP: nat := 0x1_0000_0000          // ticks are 32 bits wide
  const WAIT_FOREVER: nat := 0xFFFF_FFFF    // FuriWaitForever

  datatype RequestKind = NoRequest | StartRequest | StopRequest | FreeRequest

  datatype TimerData = TimerData(interval: nat, start_time: nat, next_interval: nat,
                                 request: RequestKind, active: bool, periodic: bool)

  /** What the running timer t looks like in true time. */
  ghost function EntryOf(timers: map<Timer, TimerData>, starts: map<Timer, nat>, t: Timer): Entry {
    if t in timers && t in starts then Entry(t, starts[t], timers[t].interval) else Entry(t, 0, 0)
  }

  ghost function EntriesOf(timers: map<Timer, TimerData>, starts: map<Timer, nat>, list: seq<Timer>): (es: seq<Entry>)
    ensures |es| == |list| && forall i :: 0 <= i < |list| ==> es[i] == EntryOf(timers, starts, list[i])
  {
    seq(|list|, i requires 0 <= i < |list| => EntryOf(timers, starts, list[i]))
  }

  /** The request a queued timer carries. */
  ghost function RequestOf(timers: map<Timer, TimerData>, t: Timer): Request {
    if t in timers && timers[t].request == StartRequest then Start(t, timers[t].next_interval)
    else if t in timers && timers[t].request == StopRequest then Stop(t)
    else Free(t)
  }

  ghost function RequestsOf(timers: map<Timer, TimerData>, queue: seq<Timer>): (rs: seq<Request>)
    ensures |rs| == |queue| && forall i :: 0 <= i < |queue| ==> rs[i] == RequestOf(timers, queue[i])
  {
    seq(|queue|, i requires 0 <= i < |queue| => RequestOf(timers, queue[i]))
  }

  ghost function PeriodicOf(timers: map<Timer, TimerData>): set<Timer> {
    set t | t in timers && timers[t].periodic
  }

  /** The branches of furi_event_loop_process_timer_queue on the timer structures. */
  ghost function CarriedOut(timers: map<Timer, TimerData>, t: Timer, tick: nat): map<Timer, TimerData> {
    if t !in timers then timers
    else
      var d := timers[t];
      if d.request == StartRequest then
        timers[t := d.(active := true, interval := d.next_interval, start_time := tick, request := NoRequest)]
      else if d.request == StopRequest then timers[t := d.(active := false, request := NoRequest)]
      else timers - {t}
  }

  ghost function Drained(timers: map<Timer, TimerData>, queue: seq<Timer>, tick: nat): map<Timer, TimerData> {
    if queue == [] then timers else Drained(CarriedOut(timers, queue[0], tick), queue[1..], tick)
  }

  /** What one call of furi_event_loop_process_expired_timers does: nothing is due, a timer fires, or the
      division by its interval of 0, undefined in C, is reached. */
  datatype Outcome = NothingDue | Fired(timer: Timer) | DivisionByZero(timer: Timer)

  ghost predicate FieldsOk(d: TimerData) {
    d.interval < WRAP && d.start_time < WRAP && d.next_interval < WRAP
  }

  ghost predicate AllFieldsOk(timers: map<Timer, TimerData>) {
    forall t :: t in timers ==> FieldsOk(timers[t])
  }

  /** Exactly the active timers are in the list, with start times that agree with the true ones. */
  ghost predicate ListOk(timers: map<Timer, TimerData>, starts: map<Timer, nat>, list: seq<Timer>, now: nat) {
    && (forall t :: t in list <==> t in timers && timers[t].active)
    && (forall t :: t in list ==> t in starts && starts[t] % WRAP == timers[t].start_time && starts[t] <= now)
  }

  /** Exactly the timers with a request are in the queue, once each. */
  ghost predicate QueueOk(timers: map<Timer, TimerData>, queue: seq<Timer>) {
    && Distinct(queue)
    && forall t :: t in queue <==> t in timers && timers[t].request != NoRequest
  }

  /** ListOk and QueueOk for all timers but t, which is in neither. */
  ghost predicate ListOkBut(timers: map<Timer, TimerData>, starts: map<Timer, nat>, list: seq<Timer>, now: nat, t: Timer) {
    && t !in list
    && (forall u :: u != t ==> (u in list <==> u in timers && timers[u].active))
    && (forall u :: u in list ==> u in starts && starts[u] % WRAP == timers[u].start_time && starts[u] <= now)
  }

  ghost predicate QueueOkBut(timers: map<Timer, TimerData>, queue: seq<Timer>, t: Timer) {
    && Distinct(queue) && t !in queue
    && forall u :: u != t ==> (u in queue <==> u in timers && timers[u].request != NoRequest)
  }

  ghost predicate AttendedBy(starts: map<Timer, nat>, list: seq<Timer>, now: nat) {
    forall t :: t in list && t in starts ==> now - starts[t] < WRAP
  }

  class FuriEventLoop {
    var timers: map<Timer, TimerData>
    var timer_list: seq<Timer>
    var timer_queue: seq<Timer>
    var tick: nat                       // xTaskGetTickCount()
    ghost var now: nat                  // true time
    ghost var starts: map<Timer, nat>   // true start times

    ghost function Running(): seq<Entry>
      reads this
    {
      EntriesOf(timers, starts, timer_list)
    }

    ghost function Requests(): seq<Request>
      reads this
    {
      RequestsOf(timers, timer_queue)
    }

    ghost function Periodic(): set<Timer>
      reads this
    {
      PeriodicOf(timers)
    }

    /** A timer is in the list exactly when active and in the queue exactly when it has a request;
        the list is in true deadline order. */
    ghost predicate Valid()
      reads this
    {
      && tick == now % WRAP
      && AllFieldsOk(timers) && ListOk(timers, starts, timer_list, now) && QueueOk(timers, timer_queue)
      && Sorted(Running()) && DistinctTimers(Running())
    }

    /** No running timer has been left unserviced for a full turn of the tick count. */
    ghost predicate Attended()
      reads this
    {
      AttendedBy(starts, timer_list, now)
    }

    constructor (tick: nat)
      requires tick < WRAP
      ensures Valid() && timers == map[] && timer_list == [] && timer_queue == []
      ensures Running() == [] && Requests() == [] && this.tick == tick && now == tick
    {
      timers, timer_list, timer_queue := map[], [], [];
      this.tick, now, starts := tick, tick, map[];
    }

    /** Time passes. */
    method Elapse(n: nat)
      requires Valid()
      modifies this`tick, this`now
      ensures Valid() && now == old(now) + n && tick == now % 0x1_0000_0000
    {
      tick := (tick + n) % WRAP;
      now := now + n;
    }

    /** furi_event_loop_timer_get_elapsed_time. */
    function ElapsedTime(t: Timer): (elapsed: nat)
      requires t in timers && timers[t].start_time < WRAP && tick < WRAP
      reads this
    {
      (tick - timers[t].start_time) % WRAP
    }

    /** furi_event_loop_timer_get_remaining_time_private. */
    function RemainingTime(t: Timer): (remaining: nat)
      requires t in timers && timers[t].start_time < WRAP && tick < WRAP
      reads this
    {
      var elapsed := ElapsedTime(t);
      if elapsed < timers[t].interval then timers[t].interval - elapsed else 0
    }

    /** furi_event_loop_timer_is_expired. */
    predicate IsExpired(t: Timer)
      requires t in timers && timers[t].start_time < WRAP && tick < WRAP
      reads this
    {
      ElapsedTime(t) >= timers[t].interval
    }

    /** The modular subtractions give true times while the timer is attended to. */
    lemma TrueTimes(t: Timer)
      requires t in timers && t in starts && FieldsOk(timers[t]) && tick == now % WRAP
      requires starts[t] % WRAP == timers[t].start_time && starts[t] <= now < starts[t] + 0x1_0000_0000
      ensures ElapsedTime(t) == now - starts[t]
      ensures var deadline := EntryOf(timers, starts, t).Deadline();
              && RemainingTime(t) == (if now < deadline then deadline - now else 0)
              && (IsExpired(t) <==> deadline <= now)
    {
      ElapsedIsTrue(now, starts[t]);
    }

    /** The search of furi_event_loop_schedule_timer, from the back. */
    method FindPosition(timer: Timer) returns (it: nat)
      requires Scheduling(timer)
      ensures it <= |timer_list|
      ensures Insert(Running(), EntryOf(timers, starts, timer))
              == Running()[..it] + [EntryOf(timers, starts, timer)] + Running()[it..]
    {
      var remaining_time := RemainingTime(timer);
      TrueTimes(timer);
      ghost var running, e := Running(), EntryOf(timers, starts, timer);
      it := |timer_list|;
      while it > 0
        invariant it <= |timer_list|
        invariant forall j :: it <= j < |timer_list| ==> e.Deadline() < running[j].Deadline()
      {
        var tmp := timer_list[it - 1];
        assert tmp in timer_list;
        TrueTimes(tmp);
        assert running[it - 1] == EntryOf(timers, starts, tmp);
        if remaining_time >= RemainingTime(tmp) {
          break;
        }
        it := it - 1;
      }
      InsertFromBack(running, e, it);
    }

    /** furi_event_loop_schedule_timer, for a timer whose deadline is not in the past. */
    method ScheduleTimer(timer: Timer)
      requires Scheduling(timer)
      modifies this`timer_list
      ensures Running() == Insert(old(Running()), EntryOf(timers, starts, timer))
      ensures forall t :: t in timer_list <==> t in old(timer_list) || t == timer
    {
      var it := FindPosition(timer);
      EntriesInsert(timers, starts, timer_list, it, timer);
      hide Insert, EntriesOf, EntryOf, Sorted;
      timer_list := timer_list[..it] + [timer] + timer_list[it..];
    }

    /** What scheduling needs: the list in order and attended, the timer not in it and not overdue. */
    ghost predicate Scheduling(timer: Timer)
      reads this
    {
      && tick == now % WRAP && Sorted(Running())
      && timer in timers && timer !in timer_list && FieldsOk(timers[timer])
      && timer in starts && starts[timer] % WRAP == timers[timer].start_time
      && starts[timer] <= now < starts[timer] + WRAP && now <= EntryOf(timers, starts, timer).Deadline()
      && (forall t :: t in timer_list ==>
            && t in timers && FieldsOk(timers[t]) && t in starts
            && starts[t] % WRAP == timers[t].start_time && starts[t] <= now < starts[t] + WRAP)
    }

    /** furi_event_loop_timer_alloc. */
    method Alloc(timer: Timer, periodic: bool)
      requires Valid() && timer !in timers
      modifies this`timers
      ensures Valid() && Running() == old(Running()) && Requests() == old(Requests())
      ensures timers == old(timers)[timer := TimerData(0, 0, 0, NoRequest, false, periodic)]
    {
      timers := timers[timer := TimerData(0, 0, 0, NoRequest, false, periodic)];
      assert Running() == old(Running()) by { assert forall t :: t in timer_list ==> t != timer; }
      assert Requests() == old(Requests()) by { assert forall t :: t in timer_queue ==> t != timer; }
    }

    /** The writes of furi_event_loop_timer_enqueue_request and of its caller. */
    method RecordRequest(timer: Timer, request: Request)
      requires timer in timers && request.timer == timer
      requires Distinct(timer_queue) && (timers[timer].request == NoRequest ==> timer !in timer_queue)
      modifies this`timers, this`timer_queue
      ensures timers == old(timers)[timer := Requested(old(timers)[timer], request)]
      ensures timer_queue == Without(old(timer_queue), timer) + [timer]
    {
      WithoutMembers(timer_queue, timer);
      if request.Start? {
        timers := timers[timer := timers[timer].(next_interval := request.interval)];
      }
      if timers[timer].request != NoRequest {
        timer_queue := Without(timer_queue, timer);
      }
      timers := timers[timer := timers[timer].(request := KindOf(request))];
      timer_queue := timer_queue + [timer];
    }

    /** A start, stop or free request; that of a timer already queued is replaced.  Asking anything
        of a timer whose free is pending is a crash in the original and excluded here. */
    method EnqueueRequest(timer: Timer, request: Request)
      requires Valid() && timer in timers && timers[timer].request != FreeRequest && request.timer == timer
      requires request.Start? ==> request.interval < 0x1_0000_0000
      modifies this`timers, this`timer_queue
      ensures Valid() && Running() == old(Running()) && timer_list == old(timer_list)
      ensures Requests() == Enqueue(old(Requests()), request)
      ensures timers == old(timers)[timer := Requested(old(timers)[timer], request)]
      ensures timer_queue == Without(old(timer_queue), timer) + [timer]
    {
      ghost var timers0, queue0 := timers, timer_queue;
      RecordRequest(timer, request);
      assert QueueOk(timers, timer_queue) by { RequestKeepsQueue(timers0, queue0, timer, request); }
      assert Running() == old(Running()) by { SameEntries(timers0, timers, starts, timer_list); }
      assert Requests() == Enqueue(old(Requests()), request) by {
        QueueReplaced(timers0, timers, queue0, Without(queue0, timer), request);
      }
    }

    /** furi_event_loop_timer_restart: asks for the interval in use, not for one that is still requested. */
    method Restart(timer: Timer)
      requires Valid() && timer in timers && timers[timer].request != FreeRequest
      modifies this`timers, this`timer_queue
      ensures Valid() && Running() == old(Running()) && timer_list == old(timer_list)
      ensures Requests() == Enqueue(old(Requests()), Start(timer, old(timers)[timer].interval))
      ensures timers == old(timers)[timer := Requested(old(timers)[timer], Start(timer, old(timers)[timer].interval))]
      ensures timer_queue == Without(old(timer_queue), timer) + [timer]
      ensures old(timers)[timer].active ==>
                exists e :: e in Running() && e.timer == timer && Start(timer, e.interval) in Requests()
    {
      EnqueueRequest(timer, Start(timer, timers[timer].interval));
    }

    /** Between taking a timer off both lists and putting it where its request wants it. */
    ghost predicate Pending(timer: Timer)
      reads this
    {
      && tick == now % WRAP && timer in timers && AllFieldsOk(timers)
      && ListOkBut(timers, starts, timer_list, now, timer) && QueueOkBut(timers, timer_queue, timer)
      && Sorted(Running()) && DistinctTimers(Running()) && AttendedBy(starts, timer_list, now)
    }

    /** The head of the loop of furi_event_loop_process_timer_queue. */
    method TakeRequest() returns (timer: Timer)
      requires Valid() && Attended() && timer_queue != []
      modifies this`timer_queue, this`timer_list
      ensures timer == old(timer_queue)[0] && timer_queue == old(timer_queue)[1..]
      ensures Pending(timer) && timers[timer].request != NoRequest
      ensures Running() == WithoutTimer(old(Running()), timer) && Requests() == old(Requests())[1..]
      ensures RequestOf(timers, timer) == old(Requests())[0]
    {
      timer := timer_queue[0];
      assert timer in timer_queue;
      HeadOfQueue(timers, timer_queue);
      ListWithout(timers, starts, timer_list, now, timer);
      UnlinkEntry(timers, starts, timer_list, timer);
      WithoutTimerMembers(Running(), timer);
      timer_queue := timer_queue[1..];
      if timers[timer].active {
        timer_list := Without(timer_list, timer);
      }
    }

    /** The start branch. */
    method StartTimer(timer: Timer)
      requires Pending(timer) && timers[timer].request == StartRequest
      modifies this`timers, this`starts, this`timer_list
      ensures Valid() && Attended() && Requests() == old(Requests())
      ensures Running() == Insert(old(Running()), Entry(timer, now, old(timers)[timer].next_interval))
      ensures timers == CarriedOut(old(timers), timer, tick)
    {
      ghost var timers0, starts0 := timers, starts;
      var d := timers[timer];
      timers := timers[timer := d.(active := true, interval := d.next_interval, start_time := tick, request := NoRequest)];
      starts := starts[timer := now];
      assert Running() == EntriesOf(timers0, starts0, timer_list) by {
        EntriesUnaffected(timers0, starts0, timers, starts, timer_list, timer);
      }
      assert Requests() == RequestsOf(timers0, timer_queue) by { RequestsUnaffected(timers0, timers, timer_queue, timer); }
      ghost var running, e := Running(), EntryOf(timers, starts, timer);
      EntryTimers(timers, starts, timer_list);
      InsertMembers(running, e);
      ScheduleTimer(timer);
    }

    /** The stop branch. */
    method StopTimer(timer: Timer)
      requires Pending(timer) && timers[timer].request == StopRequest
      modifies this`timers
      ensures Valid() && Attended() && Requests() == old(Requests()) && Running() == old(Running())
      ensures timers == CarriedOut(old(timers), timer, tick)
    {
      ghost var timers0 := timers;
      timers := timers[timer := timers[timer].(active := false, request := NoRequest)];
      EntriesUnaffected(timers0, starts, timers, starts, timer_list, timer);
      RequestsUnaffected(timers0, timers, timer_queue, timer);
    }

    /** The free branch. */
    method FreeTimer(timer: Timer)
      requires Pending(timer) && timers[timer].request == FreeRequest
      modifies this`timers
      ensures Valid() && Attended() && Requests() == old(Requests()) && Running() == old(Running())
      ensures timers == CarriedOut(old(timers), timer, tick) && timer !in timers
    {
      ghost var timers0 := timers;
      timers := timers - {timer};
      EntriesUnaffected(timers0, starts, timers, starts, timer_list, timer);
      RequestsUnaffected(timers0, timers, timer_queue, timer);
    }

    /** furi_event_loop_process_timer_queue: carries out the queued requests in order. */
    method ProcessTimerQueue()
      requires Valid() && Attended()
      modifies this`timers, this`starts, this`timer_list, this`timer_queue
      ensures Valid() && Attended() && timer_queue == []
      ensures Running() == ApplyAll(old(Running()), old(Requests()), now)
      ensures timers == Drained(old(timers), old(timer_queue), tick)
    {
      while timer_queue != []
        invariant Valid() && Attended()
        invariant Drained(timers, timer_queue, tick) == Drained(old(timers), old(timer_queue), tick)
        invariant ApplyAll(Running(), Requests(), now) == ApplyAll(old(Running()), old(Requests()), now)
        decreases |timer_queue|
      {
        label before:
        var timer := TakeRequest();
        if timers[timer].request == StartRequest {
          StartTimer(timer);
        } else if timers[timer].request == StopRequest {
          StopTimer(timer);
        } else {
          FreeTimer(timer);
        }
        assert |Requests()| < |old@before(Requests())|;
      }
    }

    /** furi_event_loop_get_timer_wait_time: exactly the least remaining time of any running timer. */
    method GetTimerWaitTime() returns (wait_time: nat)
      requires Valid() && Attended()
      ensures timer_list == [] ==> wait_time == 0xFFFF_FFFF
      ensures timer_list != [] ==>
                && (forall e :: e in Running() ==> wait_time <= Remaining(e, now))
                && exists e :: e in Running() && wait_time == Remaining(e, now)
    {
      wait_time := WAIT_FOREVER;
      if timer_list != [] {
        var timer := timer_list[0];
        assert timer in timer_list;
        TrueTimes(timer);
        wait_time := RemainingTime(timer);
        assert Running()[0] in Running() && wait_time == Remaining(Running()[0], now);
      }
    }

    /** The front of furi_event_loop_process_expired_timers: takes the front timer if it is due. */
    method TakeExpired() returns (expired: bool, timer: Timer)
      requires Valid() && Attended()
      modifies this`timer_list
      ensures expired <==> FrontDue(old(Running()), now)
      ensures !expired ==> timer_list == old(timer_list) && Valid() && Attended()
      ensures expired ==>
                && old(timer_list) != [] && timer == old(timer_list)[0] && timer_list == old(timer_list)[1..]
                && Running() == old(Running())[1..] && Expired(timer)
                && old(Running())[0] == EntryOf(timers, starts, timer) && old(Running())[0].Deadline() <= now
    {
      expired, timer := false, 0;
      ghost var running := Running();
      if timer_list != [] {
        timer := timer_list[0];
        assert timer in timer_list;
        TrueTimes(timer);
        assert running[0] in running && running[0] == EntryOf(timers, starts, timer);
        if IsExpired(timer) {
          expired := true;
          HeadOfList(timers, starts, timer_list, now);
          SortedTail(running);
          DistinctTail(running);
          timer_list := timer_list[1..];
        }
      }
    }

    /** After the front timer was taken off the list. */
    ghost predicate Expired(timer: Timer)
      reads this
    {
      && tick == now % WRAP && AllFieldsOk(timers) && QueueOk(timers, timer_queue)
      && ListOkBut(timers, starts, timer_list, now, timer) && AttendedBy(starts, timer_list, now)
      && Sorted(Running()) && DistinctTimers(Running())
      && timer in timers && timers[timer].active && timer in starts
      && starts[timer] % WRAP == timers[timer].start_time && starts[timer] <= now < starts[timer] + WRAP
    }

    /** The periodic branch: the start time moves on by whole intervals. */
    method AdvanceStart(timer: Timer)
      requires Expired(timer) && timers[timer].periodic && timers[timer].interval > 0
      modifies this`timers, this`starts
      ensures Expired(timer) && Requests() == old(Requests()) && Running() == old(Running())
      ensures EntryOf(timers, starts, timer) == Entry(timer, NextStart(old(starts)[timer], old(timers)[timer].interval, now),
                                                      old(timers)[timer].interval)
      ensures now <= EntryOf(timers, starts, timer).Deadline()
      ensures timers == old(timers)[timer := Moved(old(timers)[timer], old(starts)[timer], now)]
    {
      var start_time := NewStartTime(timer);
      ghost var next := NextStart(starts[timer], timers[timer].interval, now);
      NextStartInPhase(starts[timer], timers[timer].interval, now);
      hide NextStart, Sorted, DistinctTimers, EntriesOf, RequestsOf, AllFieldsOk, QueueOk, ListOkBut, AttendedBy;
      MoveKeeps(timers, starts, timer_list, timer_queue, now, timer, start_time, next);
      timers := timers[timer := timers[timer].(start_time := start_time)];
      starts := starts[timer := next];
    }

    /** The 32-bit arithmetic of the new start time. */
    method NewStartTime(timer: Timer) returns (start_time: nat)
      requires Expired(timer) && timers[timer].interval > 0
      ensures start_time == NextStart(starts[timer], timers[timer].interval, now) % WRAP
    {
      TrueTimes(timer);
      var d := timers[timer];
      StartMoves(starts[timer], d.interval, now);
      hide NextStart, Sorted, DistinctTimers, EntriesOf, AllFieldsOk, QueueOk, ListOkBut, AttendedBy;
      var num_events := ElapsedTime(timer) / d.interval;
      assert num_events == (now - starts[timer]) / d.interval;
      start_time := (d.start_time + d.interval * num_events) % WRAP;
    }

    method Reschedule(timer: Timer)
      requires Expired(timer) && timers[timer].periodic && timers[timer].interval > 0
      modifies this`timers, this`starts, this`timer_list
      ensures Valid() && Attended() && Requests() == old(Requests())
      ensures Running() == Insert(old(Running()),
                                  Entry(timer, NextStart(old(starts)[timer], old(timers)[timer].interval, now),
                                        old(timers)[timer].interval))
      ensures timers == old(timers)[timer := Moved(old(timers)[timer], old(starts)[timer], now)]
    {
      AdvanceStart(timer);
      EntryTimers(timers, starts, timer_list);
      InsertMembers(Running(), EntryOf(timers, starts, timer));
      ScheduleTimer(timer);
    }

    /** The one-shot branch. */
    method Deactivate(timer: Timer)
      requires Expired(timer)
      modifies this`timers
      ensures Valid() && Attended() && Requests() == old(Requests()) && Running() == old(Running())
      ensures timers == old(timers)[timer := old(timers)[timer].(active := false)]
    {
      ghost var timers0 := timers;
      timers := timers[timer := timers[timer].(active := false)];
      EntriesUnaffected(timers0, starts, timers, starts, timer_list, timer);
      SameRequests(timers0, timers, timer_queue);
    }

    /** furi_event_loop_process_expired_timers.  When a timer fires its callback is called; where the code
        divides by zero the model stops, the timer already off the list. */
    method ProcessExpiredTimers() returns (outcome: Outcome)
      requires Valid() && Attended()
      modifies this`timers, this`starts, this`timer_list
      ensures IsService(old(Running()), old(Periodic()), now, outcome, Running())
      ensures outcome.DivisionByZero? ==> timers == old(timers) && timer_list == old(timer_list)[1..]
      ensures !outcome.DivisionByZero? ==>
                && Valid() && Attended() && Requests() == old(Requests())
                && timers == if outcome.Fired? then ServicedBy(old(timers), old(starts), outcome.timer, now) else old(timers)
    {
      ghost var running, periodic := Running(), Periodic();
      RunningStarted(timers, starts, timer_list, now);
      hide Refire, EntryOf, EntriesOf, RequestsOf, PeriodicOf, ServicedBy, IsService, IsZero;
      hide AllFieldsOk, ListOk, QueueOk, ListOkBut, Sorted, DistinctTimers, AttendedBy;
      var expired, timer := TakeExpired();
      outcome := NothingDue;
      if expired { outcome := Fire(timer); }
      ServiceIs(running, periodic, now, outcome, Running());
    }

    /** The branches for a timer that is due and off the list. */
    method Fire(timer: Timer) returns (outcome: Outcome)
      requires Expired(timer)
      modifies this`timers, this`starts, this`timer_list
      ensures var e, periodic := old(EntryOf(timers, starts, timer)), old(Periodic());
              && outcome == (if IsZero(e, periodic) then DivisionByZero(timer) else Fired(timer))
              && e.start <= now
              && (outcome.Fired? ==> Running() == Refire(old(Running()), e, timer in periodic, now))
      ensures outcome.DivisionByZero? ==> timers == old(timers) && timer_list == old(timer_list)
      ensures outcome.Fired? ==>
                && Valid() && Attended() && Requests() == old(Requests())
                && timers == ServicedBy(old(timers), old(starts), timer, now)
    {
      PeriodicIs(timers, timer);
      if !timers[timer].periodic {
        outcome := Fired(timer);
        Deactivate(timer);
      } else if timers[timer].interval == 0 {
        outcome := DivisionByZero(timer);
      } else {
        outcome := Fired(timer);
        Reschedule(timer);
      }
    }
  }

  ghost function Moved(d: TimerData, start: nat, now: nat): TimerData
    requires d.interval > 0 && start <= now
  {
    d.(start_time := NextStart(start, d.interval, now) % WRAP)
  }

  /** The structures after timer t fired. */
  ghost function ServicedBy(timers: map<Timer, TimerData>, starts: map<Timer, nat>, t: Timer, now: nat)
    : map<Timer, TimerData>
  {
    if t !in timers then timers
    else if !timers[t].periodic then timers[t := timers[t].(active := false)]
    else if t in starts && starts[t] <= now && timers[t].interval > 0 then timers[t := Moved(timers[t], starts[t], now)]
    else timers
  }

  lemma RunningStarted(timers: map<Timer, TimerData>, starts: map<Timer, nat>, list: seq<Timer>, now: nat)
    requires ListOk(timers, starts, list, now)
    ensures Started(EntriesOf(timers, starts, list), now)
  {
    forall e | e in EntriesOf(timers, starts, list) ensures e.start <= now {
      var i :| 0 <= i < |list| && EntriesOf(timers, starts, list)[i] == e;
      assert list[i] in list;
    }
  }

  // ---------------------------------------------------------------- where interval 0 comes from

  /** Every periodic timer that runs, or is to be started, has a positive interval. */
  ghost predicate Positive(timers: map<Timer, TimerData>) {
    forall t :: t in timers && timers[t].periodic ==>
      && (timers[t].active ==> timers[t].interval > 0)
      && (timers[t].request == StartRequest ==> timers[t].next_interval > 0)
  }

  /** A request keeps that unless it starts a periodic timer with interval 0; a restart, which asks for the
      interval in use, does so exactly when that interval is 0. */
  lemma RequestIsPositive(timers: map<Timer, TimerData>, r: Request)
    requires Positive(timers) && r.timer in timers
    ensures Positive(timers[r.timer := Requested(timers[r.timer], r)]) <==> !AsksForZero(r, PeriodicOf(timers))
    ensures var restart := Start(r.timer, timers[r.timer].interval);
            Positive(timers[r.timer := Requested(timers[r.timer], restart)]) <==>
            !(timers[r.timer].periodic && timers[r.timer].interval == 0)
  {
    var after := timers[r.timer := Requested(timers[r.timer], r)];
    if AsksForZero(r, PeriodicOf(timers)) { assert after[r.timer].request == StartRequest; }
    var restart := Start(r.timer, timers[r.timer].interval);
    var again := timers[r.timer := Requested(timers[r.timer], restart)];
    if timers[r.timer].periodic && timers[r.timer].interval == 0 { assert again[r.timer].request == StartRequest; }
  }

  lemma {:induction false} DrainIsPositive(timers: map<Timer, TimerData>, queue: seq<Timer>, tick: nat)
    requires Positive(timers)
    ensures Positive(Drained(timers, queue, tick)) && PeriodicOf(Drained(timers, queue, tick)) <= PeriodicOf(timers)
    decreases |queue|
  {
    if queue != [] {
      DrainIsPositive(CarriedOut(timers, queue[0], tick), queue[1..], tick);
    }
  }

  lemma ServiceIsPositive(timers: map<Timer, TimerData>, starts: map<Timer, nat>, t: Timer, now: nat)
    requires Positive(timers)
    ensures Positive(ServicedBy(timers, starts, t, now))
    ensures PeriodicOf(ServicedBy(timers, starts, t, now)) == PeriodicOf(timers)
  {
  }

  /** While it holds no service divides by zero. */
  lemma PositiveNeverDivides(timers: map<Timer, TimerData>, starts: map<Timer, nat>, list: seq<Timer>, now: nat)
    requires Positive(timers) && ListOk(timers, starts, list, now)
    ensures !HasZero(EntriesOf(timers, starts, list), PeriodicOf(timers))
    ensures forall time :: !DividesNow(EntriesOf(timers, starts, list), PeriodicOf(timers), time)
  {
    forall e | e in EntriesOf(timers, starts, list) ensures !IsZero(e, PeriodicOf(timers)) {
      var i :| 0 <= i < |list| && EntriesOf(timers, starts, list)[i] == e;
      assert list[i] in list;
    }
    assert forall i :: 0 <= i < |list| ==> EntriesOf(timers, starts, list)[i] in EntriesOf(timers, starts, list);
  }

  /** The two runs that divide by zero: a periodic timer started with interval 0, ... */
  method StartedWithZero(tick: nat, timer: Timer) returns (outcome: Outcome)
    requires tick < WRAP
    ensures outcome == DivisionByZero(timer)
  {
    var loop := new FuriEventLoop(tick);
    loop.Alloc(timer, true);
    loop.EnqueueRequest(timer, Start(timer, 0));
    outcome := DrainAndServe(loop, timer);
  }

  /** ... and one restarted before its first start, with whatever interval, has been carried out. */
  method RestartedTooSoon(tick: nat, timer: Timer, interval: nat) returns (outcome: Outcome)
    requires tick < WRAP && interval < WRAP
    ensures outcome == DivisionByZero(timer)
  {
    var loop := new FuriEventLoop(tick);
    loop.Alloc(timer, true);
    loop.EnqueueRequest(timer, Start(timer, interval));
    loop.Restart(timer);
    outcome := DrainAndServe(loop, timer);
  }

  method DrainAndServe(loop: FuriEventLoop, timer: Timer) returns (outcome: Outcome)
    requires loop.Valid() && loop.timer_list == [] && loop.timer_queue == [timer]
    requires timer in loop.timers && loop.timers[timer].periodic
    requires loop.timers[timer].request == StartRequest && loop.timers[timer].next_interval == 0
    modifies loop
    ensures outcome == DivisionByZero(timer)
  {
    loop.ProcessTimerQueue();
    outcome := loop.ProcessExpiredTimers();
  }

  ghost predicate FrontIsEarliest(list: seq<Entry>) {
    list != [] && forall x :: x in list ==> list[0].Deadline() <= x.Deadline()
  }

  /** What a service reports and leaves: nothing when nothing is due, else it is about the timer with the
      earliest deadline; and it divides by zero exactly when that is periodic with interval 0. */
  ghost predicate IsService(before: seq<Entry>, periodic: set<Timer>, now: nat, outcome: Outcome, after: seq<Entry>) {
    && (outcome.NothingDue? <==> !exists e :: e in before && e.start + e.interval <= now)
    && (!outcome.NothingDue? ==> FrontIsEarliest(before) && outcome.timer == before[0].timer)
    && (outcome.DivisionByZero? <==> DividesNow(before, periodic, now))
    && (!outcome.DivisionByZero? ==> Started(before, now) && after == Service(before, periodic, now))
  }

  lemma ServiceIs(before: seq<Entry>, periodic: set<Timer>, now: nat, outcome: Outcome, after: seq<Entry>)
    requires Sorted(before) && Started(before, now)
    requires !FrontDue(before, now) ==> outcome.NothingDue? && after == before
    requires FrontDue(before, now) ==>
               var e := before[0];
               && outcome == (if IsZero(e, periodic) then DivisionByZero(e.timer) else Fired(e.timer))
               && e.start <= now
               && (outcome.Fired? ==> after == Refire(before[1..], e, e.timer in periodic, now))
    ensures IsService(before, periodic, now, outcome, after)
  {
    if before != [] { assert before[0] in before; }
  }

  lemma PeriodicIs(timers: map<Timer, TimerData>, t: Timer)
    requires t in timers
    ensures t in PeriodicOf(timers) <==> timers[t].periodic
  {
  }

  ghost function Remaining(e: Entry, now: nat): nat {
    if now < e.start + e.interval then e.start + e.interval - now else 0
  }

  /** Sleeping for that long ends exactly at the deadline, or at once when it is past. */
  lemma SleepsToDeadline(e: Entry, now: nat)
    ensures now < e.start + e.interval ==> now + Remaining(e, now) == e.start + e.interval
    ensures now >= e.start + e.interval ==> Remaining(e, now) == 0
  {
  }

  /** The product interval * num_events is less than 2^32, and the 32-bit start time stays the true one. */
  lemma StartMoves(start: nat, interval: nat, now: nat)
    requires interval > 0 && start <= now < start + WRAP
    ensures var product, next := interval * ((now - start) / interval), NextStart(start, interval, now);
            && 0 <= product < WRAP && (start % WRAP + product) % WRAP == next % WRAP
            && start <= next <= now < next + interval
  {
    NextStartInPhase(start, interval, now);
    StartTimeWraps(start, interval * ((now - start) / interval));
  }

  lemma StartTimeWraps(start: nat, step: nat)
    ensures (start % WRAP + step) % WRAP == (start + step) % WRAP
  {
  }

  lemma HeadOfList(timers: map<Timer, TimerData>, starts: map<Timer, nat>, list: seq<Timer>, now: nat)
    requires list != [] && ListOk(timers, starts, list, now) && DistinctTimers(EntriesOf(timers, starts, list))
    ensures ListOkBut(timers, starts, list[1..], now, list[0])
    ensures EntriesOf(timers, starts, list[1..]) == EntriesOf(timers, starts, list)[1..]
    ensures AttendedBy(starts, list, now) ==> AttendedBy(starts, list[1..], now)
  {
    assert forall u :: u in list <==> u == list[0] || u in list[1..];
    forall k | 1 <= k < |list| ensures list[k] != list[0] {
      var es := EntriesOf(timers, starts, list);
      assert es[k].timer == list[k] && es[0].timer == list[0];
    }
  }

  lemma SameRequests(before: map<Timer, TimerData>, after: map<Timer, TimerData>, queue: seq<Timer>)
    requires after.Keys == before.Keys
    requires forall t :: t in before ==>
               after[t].request == before[t].request && after[t].next_interval == before[t].next_interval
    ensures RequestsOf(after, queue) == RequestsOf(before, queue)
  {
  }

  lemma HeadOfQueue(timers: map<Timer, TimerData>, queue: seq<Timer>)
    requires QueueOk(timers, queue) && queue != []
    ensures QueueOkBut(timers, queue[1..], queue[0]) && RequestsOf(timers, queue[1..]) == RequestsOf(timers, queue)[1..]
    ensures queue[0] in timers && timers[queue[0]].request != NoRequest
  {
    assert forall u :: u in queue <==> u == queue[0] || u in queue[1..];
  }

  lemma ListWithout(timers: map<Timer, TimerData>, starts: map<Timer, nat>, list: seq<Timer>, now: nat, t: Timer)
    requires ListOk(timers, starts, list, now)
    ensures ListOkBut(timers, starts, Without(list, t), now, t)
    ensures AttendedBy(starts, list, now) ==> AttendedBy(starts, Without(list, t), now)
    ensures t !in list ==> Without(list, t) == list
  {
    WithoutMembers(list, t);
  }

  lemma EntriesUnaffected(timers: map<Timer, TimerData>, starts: map<Timer, nat>, timers': map<Timer, TimerData>,
                          starts': map<Timer, nat>, list: seq<Timer>, t: Timer)
    requires t !in list
    requires forall u :: u != t ==> (u in timers <==> u in timers') && (u in timers ==> timers[u] == timers'[u])
    requires forall u :: u != t ==> (u in starts <==> u in starts') && (u in starts ==> starts[u] == starts'[u])
    ensures EntriesOf(timers', starts', list) == EntriesOf(timers, starts, list)
  {
  }

  /** Moving the start time of a timer that is off the list. */
  lemma MoveKeeps(timers: map<Timer, TimerData>, starts: map<Timer, nat>, list: seq<Timer>, queue: seq<Timer>,
                  now: nat, t: Timer, start_time: nat, start: nat)
    requires AllFieldsOk(timers) && QueueOk(timers, queue) && ListOkBut(timers, starts, list, now, t)
    requires t in timers && t in starts && start_time < WRAP && starts[t] <= start
    ensures var timers', starts' := timers[t := timers[t].(start_time := start_time)], starts[t := start];
            && AllFieldsOk(timers') && QueueOk(timers', queue) && ListOkBut(timers', starts', list, now, t)
            && (AttendedBy(starts, list, now) ==> AttendedBy(starts', list, now))
            && EntriesOf(timers', starts', list) == EntriesOf(timers, starts, list)
            && RequestsOf(timers', queue) == RequestsOf(timers, queue)
  {
    var timers', starts' := timers[t := timers[t].(start_time := start_time)], starts[t := start];
    EntriesUnaffected(timers, starts, timers', starts', list, t);
    SameRequests(timers, timers', queue);
  }

  lemma RequestsUnaffected(timers: map<Timer, TimerData>, timers': map<Timer, TimerData>, queue: seq<Timer>, t: Timer)
    requires t !in queue
    requires forall u :: u != t ==> (u in timers <==> u in timers') && (u in timers ==> timers[u] == timers'[u])
    ensures RequestsOf(timers', queue) == RequestsOf(timers, queue)
  {
  }

  lemma EntryTimers(timers: map<Timer, TimerData>, starts: map<Timer, nat>, list: seq<Timer>)
    ensures forall e :: e in EntriesOf(timers, starts, list) ==> e.timer in list
  {
  }

  function KindOf(request: Request): RequestKind {
    match request case Start(_, _) => StartRequest case Stop(_) => StopRequest case Free(_) => FreeRequest
  }

  ghost function Requested(d: TimerData, request: Request): TimerData {
    d.(next_interval := if request.Start? then request.interval else d.next_interval, request := KindOf(request))
  }

  lemma RequestKeepsQueue(timers: map<Timer, TimerData>, queue: seq<Timer>, t: Timer, request: Request)
    requires QueueOk(timers, queue) && t in timers
    ensures QueueOk(timers[t := Requested(timers[t], request)], Without(queue, t) + [t])
  {
    WithoutMembers(queue, t);
    WithoutDistinct(queue, t);
    SnocDistinct(Without(queue, t), t);
  }

  lemma SameEntries(before: map<Timer, TimerData>, after: map<Timer, TimerData>, starts: map<Timer, nat>, list: seq<Timer>)
    requires forall t :: t in list ==> t in before && t in after && after[t].interval == before[t].interval
    ensures EntriesOf(after, starts, list) == EntriesOf(before, starts, list)
  {
  }

  lemma ElapsedIsTrue(now: nat, start: nat)
    requires start <= now < start + WRAP
    ensures (now % WRAP - start % WRAP) % WRAP == now - start
  {
  }

  /** Searching from the back finds the place Insert finds from the front. */
  lemma {:induction false} InsertFromBack(list: seq<Entry>, e: Entry, it: nat)
    requires Sorted(list) && it <= |list| && (it > 0 ==> list[it - 1].Deadline() <= e.Deadline())
    requires forall j :: it <= j < |list| ==> e.Deadline() < list[j].Deadline()
    ensures Insert(list, e) == list[..it] + [e] + list[it..]
  {
    if it == 0 {
      assert list[..0] == [] && list[0..] == list;
    } else {
      var x, rest := list[0], list[1..];
      assert x.Deadline() <= e.Deadline();
      InsertFromBack(rest, e, it - 1);
      assert list == [x] + rest;
      InsertCons(x, rest, e);
      assert list[..it] == [x] + rest[..it - 1] && rest[it - 1..] == list[it..];
      assert [x] + (rest[..it - 1] + [e] + rest[it - 1..]) == ([x] + rest[..it - 1]) + [e] + rest[it - 1..];
    }
  }

  lemma RequestsCons(timers: map<Timer, TimerData>, t: Timer, queue: seq<Timer>)
    ensures RequestsOf(timers, [t] + queue) == [RequestOf(timers, t)] + RequestsOf(timers, queue)
  {
  }

  lemma EntriesCons(timers: map<Timer, TimerData>, starts: map<Timer, nat>, t: Timer, list: seq<Timer>)
    ensures EntriesOf(timers, starts, [t] + list) == [EntryOf(timers, starts, t)] + EntriesOf(timers, starts, list)
  {
  }

  lemma EntriesInsert(timers: map<Timer, TimerData>, starts: map<Timer, nat>, list: seq<Timer>, it: nat, t: Timer)
    requires it <= |list|
    ensures var es, list' := EntriesOf(timers, starts, list), list[..it] + [t] + list[it..];
            && EntriesOf(timers, starts, list') == es[..it] + [EntryOf(timers, starts, t)] + es[it..]
            && forall u :: u in list' <==> u in list || u == t
  {
    assert list == list[..it] + list[it..];
  }

  lemma WithoutRequestCons(r: Request, rs: seq<Request>, t: Timer)
    ensures WithoutRequest([r] + rs, t) == (if r.timer == t then [] else [r]) + WithoutRequest(rs, t)
  {
    assert ([r] + rs)[1..] == rs;
  }

  /** Unlinking a timer from the queue drops its request, whatever its structure says now. */
  lemma {:induction false} UnlinkRequest(before: map<Timer, TimerData>, after: map<Timer, TimerData>,
                                         queue: seq<Timer>, t: Timer)
    requires forall u :: u in queue && u != t ==> RequestOf(after, u) == RequestOf(before, u)
    ensures RequestsOf(after, Without(queue, t)) == WithoutRequest(RequestsOf(before, queue), t)
  {
    if queue != [] {
      var x, rest := queue[0], queue[1..];
      UnlinkRequest(before, after, rest, t);
      assert queue == [x] + rest;
      RequestsCons(before, x, rest);
      WithoutRequestCons(RequestOf(before, x), RequestsOf(before, rest), t);
      WithoutCons(x, rest, t);
      RequestsCons(after, x, Without(rest, t));
      var others := WithoutRequest(RequestsOf(before, rest), t);
      assert [] + Without(rest, t) == Without(rest, t) && [] + others == others;
    }
  }

  lemma QueueReplaced(before: map<Timer, TimerData>, after: map<Timer, TimerData>,
                      queue: seq<Timer>, queue': seq<Timer>, r: Request)
    requires forall u :: u in queue && u != r.timer ==> RequestOf(after, u) == RequestOf(before, u)
    requires RequestOf(after, r.timer) == r && queue' == Without(queue, r.timer)
    ensures RequestsOf(after, queue' + [r.timer]) == Enqueue(RequestsOf(before, queue), r)
  {
    UnlinkRequest(before, after, queue, r.timer);
    assert RequestsOf(after, queue' + [r.timer]) == RequestsOf(after, queue') + [r];
  }

  /** Unlinking a timer from the running list drops its entry. */
  lemma {:induction false} UnlinkEntry(timers: map<Timer, TimerData>, starts: map<Timer, nat>, list: seq<Timer>, t: Timer)
    ensures EntriesOf(timers, starts, Without(list, t)) == WithoutTimer(EntriesOf(timers, starts, list), t)
  {
    if list != [] {
      var x, rest := list[0], list[1..];
      UnlinkEntry(timers, starts, rest, t);
      assert list == [x] + rest;
      EntriesCons(timers, starts, x, rest);
      WithoutTimerCons(EntryOf(timers, starts, x), EntriesOf(timers, starts, rest), t);
      WithoutCons(x, rest, t);
      EntriesCons(timers, starts, x, Without(rest, t));
      assert [] + Without(rest, t) == Without(rest, t);
      assert [] + WithoutTimer(EntriesOf(timers, starts, rest), t) == WithoutTimer(EntriesOf(timers, starts, rest), t);
    }
  }
}
