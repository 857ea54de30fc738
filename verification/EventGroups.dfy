/** 32-bit words and the sets of their bit positions. */
module EventWords {

  const WIDTH: nat := 32

  predicate Odd(word: bv32) { word & 1 == 1 }

  function Half(word: bv32): bv32 { word >> 1 }

  /** Bit i of the word. */
  predicate Has(word: bv32, i: nat) {
    if i == 0 then Odd(word) else Has(Half(word), i - 1)
  }

  ghost function BitsOf(word: bv32): (bits: set<nat>)
    ensures forall i :: i in bits <==> 0 <= i < WIDTH && Has(word, i)
  {
    set i | 0 <= i < WIDTH && Has(word, i)
  }

  lemma OddOr(a: bv32, b: bv32)
    ensures Odd(a | b) <==> Odd(a) || Odd(b)
  {
  }

  lemma HalfOr(a: bv32, b: bv32)
    ensures Half(a | b) == Half(a) | Half(b)
  {
  }

  lemma {:induction false} HasOr(a: bv32, b: bv32, i: nat)
    ensures Has(a | b, i) <==> Has(a, i) || Has(b, i)
    decreases i
  {
    OddOr(a, b);
    if i > 0 {
      HalfOr(a, b);
      HasOr(Half(a), Half(b), i - 1);
    }
  }

  lemma OddAnd(a: bv32, b: bv32)
    ensures Odd(a & b) <==> Odd(a) && Odd(b)
  {
  }

  lemma HalfAnd(a: bv32, b: bv32)
    ensures Half(a & b) == Half(a) & Half(b)
  {
  }

  lemma {:induction false} HasAnd(a: bv32, b: bv32, i: nat)
    ensures Has(a & b, i) <==> Has(a, i) && Has(b, i)
    decreases i
  {
    OddAnd(a, b);
    if i > 0 {
      HalfAnd(a, b);
      HasAnd(Half(a), Half(b), i - 1);
    }
  }

  lemma OddAndNot(a: bv32, b: bv32)
    ensures Odd(a & !b) <==> Odd(a) && !Odd(b)
  {
  }

  lemma HalfAndNot(a: bv32, b: bv32)
    ensures Half(a & !b) == Half(a) & !Half(b)
  {
  }

  lemma {:induction false} HasAndNot(a: bv32, b: bv32, i: nat)
    ensures Has(a & !b, i) <==> Has(a, i) && !Has(b, i)
    decreases i
  {
    OddAndNot(a, b);
    if i > 0 {
      HalfAndNot(a, b);
      HasAndNot(Half(a), Half(b), i - 1);
    }
  }

  /** or, and and and-not on words are union, intersection and difference of their bits. */
  lemma OrIsUnion(a: bv32, b: bv32)
    ensures BitsOf(a | b) == BitsOf(a) + BitsOf(b)
  {
    forall i: nat ensures Has(a | b, i) <==> Has(a, i) || Has(b, i) { HasOr(a, b, i); }
  }

  lemma AndIsIntersection(a: bv32, b: bv32)
    ensures BitsOf(a & b) == BitsOf(a) * BitsOf(b)
  {
    forall i: nat ensures Has(a & b, i) <==> Has(a, i) && Has(b, i) { HasAnd(a, b, i); }
  }

  lemma AndNotIsDifference(a: bv32, b: bv32)
    ensures BitsOf(a & !b) == BitsOf(a) - BitsOf(b)
  {
    forall i: nat ensures Has(a & !b, i) <==> Has(a, i) && !Has(b, i) { HasAndNot(a, b, i); }
  }

  /** No bit at k or above. */
  predicate Fits(word: bv32, k: nat) {
    if k == 0 then word == 0 else Fits(Half(word), k - 1)
  }

  lemma FourHalves(word: bv32)
    ensures Half(Half(Half(Half(word)))) == word >> 4
  {
  }

  lemma FitsHalfByte(word: bv32, k: nat)
    requires Fits(word >> 4, k)
    ensures Fits(word, k + 4)
  {
    FourHalves(word);
    assert Fits(Half(Half(Half(word))), k + 1);
    assert Fits(Half(Half(word)), k + 2);
    assert Fits(Half(word), k + 3);
  }

  lemma TwoShifts(word: bv32)
    ensures word >> 4 >> 4 == word >> 8
  {
  }

  lemma FitsByte(word: bv32, k: nat)
    requires Fits(word >> 8, k)
    ensures Fits(word, k + 8)
  {
    TwoShifts(word);
    FitsHalfByte(word >> 4, k);
    FitsHalfByte(word, k + 4);
  }

  lemma FourBytes(word: bv32)
    ensures word >> 8 >> 8 >> 8 >> 8 == 0
  {
  }

  lemma FitsWidth(word: bv32)
    ensures Fits(word, WIDTH)
  {
    FourBytes(word);
    FitsByte(word >> 8 >> 8 >> 8, 0);
    FitsByte(word >> 8 >> 8, 8);
    FitsByte(word >> 8, 16);
    FitsByte(word, 24);
  }

  lemma HalfIsZero(word: bv32)
    requires Half(word) == 0 && !Odd(word)
    ensures word == 0
  {
  }

  lemma {:induction false} SomeBit(word: bv32, k: nat) returns (i: nat)
    requires word != 0 && Fits(word, k)
    ensures i < k && Has(word, i)
    decreases k
  {
    if Odd(word) {
      i := 0;
    } else {
      if Half(word) == 0 { HalfIsZero(word); }
      i := SomeBit(Half(word), k - 1);
      i := i + 1;
    }
  }

  lemma {:induction false} ZeroHasNone(i: nat)
    ensures !Has(0, i)
  {
    if i > 0 { ZeroHasNone(i - 1); }
  }

  lemma NoBits(word: bv32)
    ensures BitsOf(word) == {} <==> word == 0
  {
    if word != 0 {
      FitsWidth(word);
      var i := SomeBit(word, WIDTH);
      assert i in BitsOf(word);
    } else {
      forall i: nat ensures !Has(0, i) { ZeroHasNone(i); }
    }
  }

  lemma NothingMissing(a: bv32, b: bv32)
    requires a & !b == 0 && b & !a == 0
    ensures a == b
  {
  }

  /** Words with the same bits are the same. */
  lemma BitsDetermineWord(a: bv32, b: bv32)
    requires BitsOf(a) == BitsOf(b)
    ensures a == b
  {
    AndNotIsDifference(a, b);
    AndNotIsDifference(b, a);
    NoBits(a & !b);
    NoBits(b & !a);
    NothingMissing(a, b);
  }
}

/** The event groups of lib/FreeRTOS-Kernel/event_groups.c as functions on values.  A bit word is
    the set of its bit positions, as module EventWords and SetBitsOnWords justify.  The control bits
    the code packs into a waiter's list item value are the two flags of a Waiter. */
module EventGroupState {
  import opened EventWords

  type Bits = set<nat>
  type Task = nat

  datatype Waiter = Waiter(task: Task, waitFor: Bits, clearOnExit: bool, all: bool)

  datatype Group = Group(bits: Bits, waiting: seq<Waiter>)

  // ---------------------------------------------------------------- the packed word

  const CLEAR_EVENTS_ON_EXIT_BIT: bv32 := 0x0100_0000
  const UNBLOCKED_DUE_TO_BIT_SET: bv32 := 0x0200_0000
  const WAIT_FOR_ALL_BITS: bv32 := 0x0400_0000
  const CONTROL_BYTES: bv32 := 0xff00_0000

  /** The list item value of a waiter. */
  function Pack(waitFor: bv32, clearOnExit: bool, all: bool): bv32 {
    waitFor | (if clearOnExit then CLEAR_EVENTS_ON_EXIT_BIT else 0) | (if all then WAIT_FOR_ALL_BITS else 0)
  }

  /** What xEventGroupSetBits reads of a list item value. */
  function WaitedFor(value: bv32): bv32 { value & !CONTROL_BYTES }

  predicate ForAll(value: bv32) { value & CONTROL_BYTES & WAIT_FOR_ALL_BITS != 0 }

  predicate ClearsOnExit(value: bv32) { value & CONTROL_BYTES & CLEAR_EVENTS_ON_EXIT_BIT != 0 }

  predicate Match(waitedFor: bv32, all: bool, now: bv32) {
    if all then waitedFor & now == waitedFor else waitedFor & now != 0
  }

  /** xMatchFound for an item and the bits `now`. */
  predicate MatchFound(value: bv32, now: bv32) {
    Match(WaitedFor(value), ForAll(value), now)
  }

  /** What xEventGroupSetBits reads back from it, and what an unblocked task reads back from the
      value it is given, is what was packed. */
  lemma PackingIsLossless(waitFor: bv32, clearOnExit: bool, all: bool, value: bv32)
    requires waitFor & 0xff00_0000 == 0 && value & 0xff00_0000 == 0
    ensures var word := Pack(waitFor, clearOnExit, all);
            && word == waitFor | (if clearOnExit then 0x0100_0000 else 0) | (if all then 0x0400_0000 else 0)
            && word & !CONTROL_BYTES == waitFor
            && (word & CONTROL_BYTES & CLEAR_EVENTS_ON_EXIT_BIT != 0 <==> clearOnExit)
            && (word & CONTROL_BYTES & WAIT_FOR_ALL_BITS != 0 <==> all)
            && word & UNBLOCKED_DUE_TO_BIT_SET == 0
    ensures (value | UNBLOCKED_DUE_TO_BIT_SET) & !CONTROL_BYTES == value
    ensures (value | UNBLOCKED_DUE_TO_BIT_SET) & UNBLOCKED_DUE_TO_BIT_SET != 0
  {
  }

  /** The mark of a value delivered because bits were set. */
  lemma DeliveryIsMarked(value: bv32)
    ensures value | UNBLOCKED_DUE_TO_BIT_SET == value | 0x0200_0000
  {
  }

  // ---------------------------------------------------------------- operations

  /** prvTestWaitCondition. */
  predicate TestWaitCondition(current: Bits, waitFor: Bits, all: bool) {
    if all then current * waitFor == waitFor else current * waitFor != {}
  }

  predicate Met(w: Waiter, current: Bits) {
    TestWaitCondition(current, w.waitFor, w.all)
  }

  /** The waiters, in list order, whose condition holds (met) or does not (!met) for `current`. */
  ghost function Select(ws: seq<Waiter>, current: Bits, met: bool): seq<Waiter> {
    if ws == [] then []
    else (if Met(ws[0], current) == met then [ws[0]] else []) + Select(ws[1..], current, met)
  }

  /** The bits of the waiters that asked for them to be cleared on exit. */
  ghost function BitsToClear(ws: seq<Waiter>): Bits {
    if ws == [] then {}
    else (if ws[0].clearOnExit then ws[0].waitFor else {}) + BitsToClear(ws[1..])
  }

  /** xEventGroupSetBits: the group afterwards. */
  ghost function SetBits(g: Group, bits: Bits): Group {
    var now := g.bits + bits;
    Group(now - BitsToClear(Select(g.waiting, now, true)), Select(g.waiting, now, false))
  }

  /** The waiters it wakes; each is given the value g.bits + bits. */
  ghost function Woken(g: Group, bits: Bits): seq<Waiter> {
    Select(g.waiting, g.bits + bits, true)
  }

  /** The result of a call that may block: its return value, or the waiter it leaves on the list.
      A new waiter goes to the end of the unordered list. */
  datatype Outcome = Returned(value: Bits) | Blocked(waiter: Waiter)

  /** The first part of xEventGroupWaitBits, up to blocking. */
  ghost function WaitBits(g: Group, w: Waiter, block: bool): (Group, Outcome) {
    if Met(w, g.bits) then
      (g.(bits := if w.clearOnExit then g.bits - w.waitFor else g.bits), Returned(g.bits))
    else if !block then (g, Returned(g.bits))
    else (g.(waiting := g.waiting + [w]), Blocked(w))
  }

  /** The first part of xEventGroupSync. */
  ghost function Sync(g: Group, t: Task, bits: Bits, waitFor: Bits, block: bool): (Group, Outcome) {
    var g', w := SetBits(g, bits), Waiter(t, waitFor, true, true);
    if (g.bits + bits) * waitFor == waitFor then (g'.(bits := g'.bits - waitFor), Returned(g.bits + bits))
    else if block then (g'.(waiting := g'.waiting + [w]), Blocked(w))
    else (g', Returned(g'.bits))
  }

  /** What a task does when it runs again after its block time ended: it takes the current bits,
      and clears the ones it waited for if its condition has come true in the meantime. */
  ghost function AfterTimeout(g: Group, w: Waiter): (Group, Bits) {
    (if Met(w, g.bits) && w.clearOnExit then g.(bits := g.bits - w.waitFor) else g, g.bits)
  }

  ghost function ClearBits(g: Group, bits: Bits): Group {
    g.(bits := g.bits - bits)
  }

  /** The block time of the waiter at index i ends: the tick takes it off the list. */
  ghost function TimeOut(g: Group, i: nat): Group
    requires i < |g.waiting|
  {
    g.(waiting := g.waiting[..i] + g.waiting[i + 1..])
  }

  // ---------------------------------------------------------------- what a call returns and leaves

  /** A wait whose condition holds returns the bits as they were and nobody is woken or queued; with clear-on-exit
      none of the bits waited for is left set and all others are untouched, without it all bits are. */
  lemma WaitTakes(g: Group, w: Waiter, block: bool)
    requires if w.all then w.waitFor <= g.bits else exists b :: b in w.waitFor && b in g.bits
    ensures var (g', outcome) := WaitBits(g, w, block);
            && outcome == Returned(g.bits) && g'.waiting == g.waiting
            && (w.clearOnExit ==> forall b :: b in g'.bits <==> b in g.bits && b !in w.waitFor)
            && (!w.clearOnExit ==> g'.bits == g.bits)
  {
    MetMeans(w, g.bits);
  }

  /** One whose condition does not hold blocks, at the end of the list, exactly when it has time; else it returns
      the bits and changes nothing. */
  lemma WaitBlocks(g: Group, w: Waiter, block: bool)
    requires !(if w.all then w.waitFor <= g.bits else exists b :: b in w.waitFor && b in g.bits)
    ensures var (g', outcome) := WaitBits(g, w, block);
            && g'.bits == g.bits
            && (block ==> outcome == Blocked(w) && g'.waiting == g.waiting + [w])
            && (!block ==> outcome == Returned(g.bits) && g'.waiting == g.waiting)
  {
    MetMeans(w, g.bits);
  }

  lemma MetMeans(w: Waiter, bits: Bits)
    ensures Met(w, bits) <==> if w.all then w.waitFor <= bits else exists b :: b in w.waitFor && b in bits
  {
    if w.all {
      if w.waitFor <= bits { assert bits * w.waitFor == w.waitFor; }
      if bits * w.waitFor == w.waitFor { assert forall b :: b in w.waitFor ==> b in bits * w.waitFor; }
    } else {
      if b :| b in w.waitFor && b in bits { assert b in bits * w.waitFor; }
      if bits * w.waitFor != {} { var b :| b in bits * w.waitFor; }
    }
  }

  /** An event is consumed once by a wait that clears on exit, and by none that does not. */
  lemma EventIsConsumedOnce(g: Group, t: Task, u: Task, b: nat, clear: bool, all: bool)
    requires b in g.bits
    ensures var w, w' := Waiter(t, {b}, clear, all), Waiter(u, {b}, clear, all);
            var (g1, first) := WaitBits(g, w, true);
            var (g2, second) := WaitBits(g1, w', true);
            && first == Returned(g.bits)
            && (clear ==> second == Blocked(w') && b !in g2.bits && g2.waiting == g.waiting + [w'])
            && (!clear ==> second == Returned(g.bits) && g2 == g)
  {
    var w, w' := Waiter(t, {b}, clear, all), Waiter(u, {b}, clear, all);
    assert b in w.waitFor && w.waitFor <= g.bits;
    WaitTakes(g, w, true);
    var g1 := WaitBits(g, w, true).0;
    if clear {
      assert b in w'.waitFor && b !in g1.bits;
      WaitBlocks(g1, w', true);
    } else {
      WaitTakes(g1, w', true);
    }
  }

  /** A rendezvous that completes the bits waited for returns all that were set, its own included, and leaves none
      of those waited for; one that does not blocks when it has time, with clear-on-exit and for all bits, and
      otherwise returns the bits as they then are. */
  lemma SyncReturns(g: Group, t: Task, bits: Bits, waitFor: Bits, block: bool)
    ensures var (g', outcome) := Sync(g, t, bits, waitFor, block);
            var after := SetBits(g, bits);
            if waitFor <= g.bits + bits then
              && outcome == Returned(g.bits + bits) && g'.waiting == after.waiting
              && forall b :: b in g'.bits <==> b in after.bits && b !in waitFor
            else if block then
              outcome == Blocked(Waiter(t, waitFor, true, true)) && g'.bits == after.bits
              && g'.waiting == after.waiting + [Waiter(t, waitFor, true, true)]
            else outcome == Returned(after.bits) && g' == after
  {
    var now := g.bits + bits;
    if waitFor <= now { assert now * waitFor == waitFor; }
    if now * waitFor == waitFor { assert forall b :: b in waitFor ==> b in now * waitFor; }
  }

  /** After a time-out the bits as they are are returned; when the condition has come true meanwhile the call
      clears like one that never blocked, and otherwise changes nothing. */
  lemma TimeoutReturns(g: Group, w: Waiter)
    ensures var (g', value) := AfterTimeout(g, w);
            var met := if w.all then w.waitFor <= g.bits else exists b :: b in w.waitFor && b in g.bits;
            && value == g.bits && g'.waiting == g.waiting
            && (met ==> (g', Returned(value)) == WaitBits(g, w, false))
            && (!met ==> g' == g)
  {
    MetMeans(w, g.bits);
  }

  /** Clearing takes away exactly the bits named. */
  lemma ClearLeaves(g: Group, bits: Bits)
    ensures ClearBits(g, bits).waiting == g.waiting
    ensures forall b :: b in ClearBits(g, bits).bits <==> b in g.bits && b !in bits
  {
  }

  /** A time-out takes one waiter off the list and leaves the bits and the order of the others alone. */
  lemma TimeOutDrops(g: Group, i: nat)
    requires i < |g.waiting|
    ensures var g' := TimeOut(g, i);
            && g'.bits == g.bits && |g'.waiting| == |g.waiting| - 1
            && forall k :: 0 <= k < |g'.waiting| ==> g'.waiting[k] == g.waiting[if k < i then k else k + 1]
  {
  }

  // ---------------------------------------------------------------- the same on words

  /** An item of the event list, with the value Pack gave it. */
  datatype Item = Item(task: Task, value: bv32)

  ghost function WaiterOf(item: Item): Waiter {
    Waiter(item.task, BitsOf(WaitedFor(item.value)), ClearsOnExit(item.value), ForAll(item.value))
  }

  ghost function WaitersOf(items: seq<Item>): seq<Waiter> {
    if items == [] then [] else [WaiterOf(items[0])] + WaitersOf(items[1..])
  }

  function Unmatched(items: seq<Item>, now: bv32): seq<Item> {
    if items == [] then []
    else (if MatchFound(items[0].value, now) then [] else [items[0]]) + Unmatched(items[1..], now)
  }

  /** What an item adds to uxBitsToClear. */
  function ItemToClear(value: bv32, now: bv32): bv32 {
    if MatchFound(value, now) && ClearsOnExit(value) then WaitedFor(value) else 0
  }

  /** uxBitsToClear after the walk over the items. */
  function WordToClear(items: seq<Item>, now: bv32): bv32 {
    if items == [] then 0 else ItemToClear(items[0].value, now) | WordToClear(items[1..], now)
  }

  /** The two tests of prvTestWaitCondition on words are the one on sets. */
  lemma TestsAreTheSame(current: bv32, waitFor: bv32, all: bool)
    ensures TestWaitCondition(BitsOf(current), BitsOf(waitFor), all) <==> Match(waitFor, all, current)
  {
    AndIsIntersection(waitFor, current);
    NoBits(waitFor & current);
    if BitsOf(waitFor & current) == BitsOf(waitFor) { BitsDetermineWord(waitFor & current, waitFor); }
  }

  lemma MatchIsMet(item: Item, now: bv32)
    ensures MatchFound(item.value, now) <==> Met(WaiterOf(item), BitsOf(now))
  {
    hide WaitedFor, ForAll, ClearsOnExit, Match, TestWaitCondition;
    TestsAreTheSame(now, WaitedFor(item.value), ForAll(item.value));
  }

  /** Packed and read back, a waiter is the same. */
  lemma PackedWaiter(task: Task, waitFor: bv32, clearOnExit: bool, all: bool)
    requires waitFor & CONTROL_BYTES == 0
    ensures WaiterOf(Item(task, Pack(waitFor, clearOnExit, all))) == Waiter(task, BitsOf(waitFor), clearOnExit, all)
  {
    PackingIsLossless(waitFor, clearOnExit, all, 0);
  }

  lemma WordUnfolds(items: seq<Item>, now: bv32)
    requires items != []
    ensures WordToClear(items, now) == ItemToClear(items[0].value, now) | WordToClear(items[1..], now)
  {
    hide ItemToClear;
  }

  lemma ClearNone(now: bv32)
    ensures BitsOf(WordToClear([], now)) == {}
  {
    NoBits(0);
  }

  lemma ClearOne(items: seq<Item>, now: bv32)
    requires items != []
    ensures var value := items[0].value;
            BitsOf(WordToClear(items, now)) ==
            (if MatchFound(value, now) && ClearsOnExit(value) then BitsOf(WaitedFor(value)) else {})
            + BitsOf(WordToClear(items[1..], now))
  {
    hide WaitedFor, MatchFound, ClearsOnExit, BitsOf, WordToClear, ItemToClear;
    var value := items[0].value;
    WordUnfolds(items, now);
    ItemBits(value, now);
    OrIsUnion(ItemToClear(value, now), WordToClear(items[1..], now));
  }

  lemma ItemBits(value: bv32, now: bv32)
    ensures BitsOf(ItemToClear(value, now)) ==
            if MatchFound(value, now) && ClearsOnExit(value) then BitsOf(WaitedFor(value)) else {}
  {
    hide WaitedFor, MatchFound, ClearsOnExit, BitsOf;
    NoBits(0);
  }

  lemma SelectCons(w: Waiter, ws: seq<Waiter>, current: Bits, met: bool)
    ensures Select([w] + ws, current, met) == (if Met(w, current) == met then [w] else []) + Select(ws, current, met)
  {
    assert ([w] + ws)[1..] == ws;
  }

  lemma ToClearCons(w: Waiter, ws: seq<Waiter>)
    ensures BitsToClear([w] + ws) == (if w.clearOnExit then w.waitFor else {}) + BitsToClear(ws)
    ensures BitsToClear([] + ws) == BitsToClear(ws)
  {
    assert ([w] + ws)[1..] == ws && [] + ws == ws;
  }

  lemma WaitersCons(item: Item, items: seq<Item>)
    ensures WaitersOf([item] + items) == [WaiterOf(item)] + WaitersOf(items)
    ensures WaitersOf([] + items) == WaitersOf(items)
  {
    assert ([item] + items)[1..] == items && [] + items == items;
  }

  lemma {:induction false} WalkOnWords(items: seq<Item>, now: bv32)
    ensures WaitersOf(Unmatched(items, now)) == Select(WaitersOf(items), BitsOf(now), false)
    ensures BitsOf(WordToClear(items, now)) == BitsToClear(Select(WaitersOf(items), BitsOf(now), true))
  {
    hide MatchFound, Met, WordToClear, BitsOf, WaitedFor, ClearsOnExit;
    if items == [] {
      ClearNone(now);
    } else {
      ClearOne(items, now);
      var item, rest := items[0], items[1..];
      var w, ws := WaiterOf(item), WaitersOf(rest);
      hide WaiterOf;
      WalkOnWords(rest, now);
      MatchIsMet(item, now);
      SelectCons(w, ws, BitsOf(now), true);
      SelectCons(w, ws, BitsOf(now), false);
      WaitersCons(item, Unmatched(rest, now));
      ToClearCons(w, Select(ws, BitsOf(now), true));
      ItemsBits(item);
      var none: seq<Waiter> := [];
      assert none + Select(ws, BitsOf(now), false) == Select(ws, BitsOf(now), false);
    }
  }

  lemma ItemsBits(item: Item)
    ensures WaiterOf(item).clearOnExit == ClearsOnExit(item.value) && WaiterOf(item).waitFor == BitsOf(WaitedFor(item.value))
  {
  }

  /** xEventGroupSetBits on words and packed list items does to the bit sets what SetBits does. */
  lemma SetBitsOnWords(bits: bv32, items: seq<Item>, toSet: bv32)
    ensures var now := bits | toSet;
            SetBits(Group(BitsOf(bits), WaitersOf(items)), BitsOf(toSet))
            == Group(BitsOf(now & !WordToClear(items, now)), WaitersOf(Unmatched(items, now)))
  {
    var now := bits | toSet;
    OrIsUnion(bits, toSet);
    WalkOnWords(items, now);
    AndNotIsDifference(now, WordToClear(items, now));
  }

  /** No blocked task's condition holds. */
  ghost predicate Quiescent(g: Group) {
    forall i :: 0 <= i < |g.waiting| ==> !Met(g.waiting[i], g.bits)
  }

  lemma {:induction false} SelectMembers(ws: seq<Waiter>, current: Bits, met: bool)
    ensures forall w :: w in Select(ws, current, met) <==> w in ws && Met(w, current) == met
    ensures (forall w :: w in ws ==> Met(w, current) == met) ==> Select(ws, current, met) == ws
    ensures (forall w :: w in ws ==> Met(w, current) != met) ==> Select(ws, current, met) == []
    ensures |Select(ws, current, true)| + |Select(ws, current, false)| == |ws|
  {
    if ws != [] {
      SelectMembers(ws[1..], current, met);
      assert forall w :: w in ws <==> w == ws[0] || w in ws[1..];
    }
  }

  lemma {:induction false} BitsToClearMembers(ws: seq<Waiter>)
    ensures forall b :: b in BitsToClear(ws) <==> exists w :: w in ws && w.clearOnExit && b in w.waitFor
  {
    if ws != [] {
      BitsToClearMembers(ws[1..]);
      assert forall w :: w in ws <==> w == ws[0] || w in ws[1..];
    }
  }

  /** Conditions are monotone: clearing bits cannot make one true. */
  lemma MetIsMonotone(w: Waiter, less: Bits, more: Bits)
    requires less <= more && Met(w, less)
    ensures Met(w, more)
  {
    if !w.all {
      var b :| b in less * w.waitFor;
      assert b in more * w.waitFor;
    }
  }

  /** Setting bits wakes exactly the waiters satisfied by old|set, leaves nobody satisfied waiting,
      and afterwards clears exactly the bits of the woken clear-on-exit waiters. */
  lemma SetBitsWakesExactly(g: Group, bits: Bits)
    ensures Quiescent(SetBits(g, bits))
    ensures forall w :: w in g.waiting ==> (w in Woken(g, bits) <==> Met(w, g.bits + bits))
    ensures forall w :: w in SetBits(g, bits).waiting <==> w in g.waiting && !Met(w, g.bits + bits)
    ensures forall b :: b in SetBits(g, bits).bits <==>
              (b in g.bits || b in bits)
              && !exists w :: w in g.waiting && Met(w, g.bits + bits) && w.clearOnExit && b in w.waitFor
    ensures |Woken(g, bits)| + |SetBits(g, bits).waiting| == |g.waiting|
  {
    var now := g.bits + bits;
    SelectMembers(g.waiting, now, true);
    SelectMembers(g.waiting, now, false);
    BitsToClearMembers(Woken(g, bits));
    var g' := SetBits(g, bits);
    forall i | 0 <= i < |g'.waiting| ensures !Met(g'.waiting[i], g'.bits) {
      assert g'.waiting[i] in g'.waiting;
      if Met(g'.waiting[i], g'.bits) { MetIsMonotone(g'.waiting[i], g'.bits, now); }
    }
  }

  lemma FewerBitsStayQuiescent(g: Group, bits: Bits)
    requires Quiescent(g) && bits <= g.bits
    ensures Quiescent(g.(bits := bits))
  {
    forall i | 0 <= i < |g.waiting| ensures !Met(g.waiting[i], bits) {
      if Met(g.waiting[i], bits) { MetIsMonotone(g.waiting[i], bits, g.bits); }
    }
  }
}

/** Whole runs of an event group: any number of tasks set, wait, rendezvous, clear and time out. */
module EventGroupRuns {
  import opened EventGroupState

  datatype Action =
    | SetCall(bits: Bits)
    | WaitCall(waiter: Waiter, block: bool)
    | SyncCall(task: Task, bits: Bits, waitFor: Bits, block: bool)
    | ClearCall(bits: Bits)
    | TickTimeOut(index: nat)
    | TimedOutRuns(waiter: Waiter)  // a timed-out task gets to run

  ghost predicate Enabled(g: Group, a: Action) {
    match a
    case WaitCall(w, _) => w.waitFor != {}
    case SyncCall(_, _, waitFor, _) => waitFor != {}
    case TickTimeOut(i) => i < |g.waiting|
    case _ => true
  }

  /** Calls may come at any time, as long as something is waited for, and so may the end of any wait. */
  lemma WhatMayHappen(g: Group, bits: Bits, w: Waiter, block: bool, t: Task, i: nat)
    ensures Enabled(g, SetCall(bits)) && Enabled(g, ClearCall(bits)) && Enabled(g, TimedOutRuns(w))
    ensures Enabled(g, WaitCall(w, block)) <==> w.waitFor != {}
    ensures Enabled(g, SyncCall(t, bits, w.waitFor, block)) <==> w.waitFor != {}
    ensures Enabled(g, TickTimeOut(i)) <==> i < |g.waiting|
  {
  }

  ghost function Step(g: Group, a: Action): Group
    requires Enabled(g, a)
  {
    match a
    case SetCall(bits) => SetBits(g, bits)
    case WaitCall(w, block) => WaitBits(g, w, block).0
    case SyncCall(t, bits, waitFor, block) => Sync(g, t, bits, waitFor, block).0
    case ClearCall(bits) => ClearBits(g, bits)
    case TickTimeOut(i) => TimeOut(g, i)
    case TimedOutRuns(w) => AfterTimeout(g, w).0
  }

  ghost predicate Reaches(g: Group, actions: seq<Action>, g': Group)
    decreases |actions|
  {
    if actions == [] then g == g' else Enabled(g, actions[0]) && Reaches(Step(g, actions[0]), actions[1..], g')
  }

  lemma StepQuiescent(g: Group, a: Action)
    requires Quiescent(g) && Enabled(g, a)
    ensures Quiescent(Step(g, a))
  {
    match a
    case SetCall(bits) => SetBitsWakesExactly(g, bits);
    case WaitCall(w, block) => FewerBitsStayQuiescent(g, g.bits - w.waitFor);
    case SyncCall(t, bits, waitFor, block) => SyncQuiescent(g, t, bits, waitFor, block);
    case ClearCall(bits) => FewerBitsStayQuiescent(g, g.bits - bits);
    case TickTimeOut(i) =>
    case TimedOutRuns(w) => FewerBitsStayQuiescent(g, g.bits - w.waitFor);
  }

  lemma SyncQuiescent(g: Group, t: Task, bits: Bits, waitFor: Bits, block: bool)
    requires waitFor != {}
    ensures Quiescent(Sync(g, t, bits, waitFor, block).0)
  {
    SetBitsWakesExactly(g, bits);
    var g', w := SetBits(g, bits), Waiter(t, waitFor, true, true);
    FewerBitsStayQuiescent(g', g'.bits - waitFor);
    if (g.bits + bits) * waitFor != waitFor && block {
      if Met(w, g'.bits) { MetIsMonotone(w, g'.bits, g.bits + bits); }
    }
  }

  /** In every state any run reaches, no blocked task's condition holds for the current bits. */
  lemma {:induction false} AlwaysQuiescent(g: Group, actions: seq<Action>, g': Group)
    requires Quiescent(g) && Reaches(g, actions, g')
    ensures Quiescent(g')
    decreases |actions|
  {
    if actions != [] {
      StepQuiescent(g, actions[0]);
      AlwaysQuiescent(Step(g, actions[0]), actions[1..], g');
    }
  }
}

/** xEventGroupSync as a reusable barrier. */
module EventGroupBarrier {
  import opened EventGroupState

  /** What a task is doing: between calls, blocked in the rendezvous, or woken with a value but not
      running again yet. */
  datatype Status = Outside | Inside | Released(value: Bits)

  /** `arrived` and `returned` count the calls each task has begun and completed. */
  datatype State = State(g: Group, status: map<Task, Status>, arrived: map<Task, nat>, returned: map<Task, nat>)

  datatype Action = Arrive(task: Task) | Return(task: Task)

  /** Every task owns some bits, no bit has two owners, and the wait mask is all of them. */
  ghost predicate Setup(own: map<Task, Bits>, mask: Bits) {
    && (forall t :: t in own ==> own[t] != {} && own[t] <= mask)
    && (forall t, u, b :: t in own && u in own && b in own[t] && b in own[u] ==> t == u)
    && (forall b :: b in mask ==> exists t :: t in own && b in own[t])
  }

  ghost predicate SameTasks(s: State, own: map<Task, Bits>) {
    s.status.Keys == s.arrived.Keys == s.returned.Keys == own.Keys
  }

  ghost predicate Initial(s: State, own: map<Task, Bits>) {
    && s.g == Group({}, []) && SameTasks(s, own)
    && forall t :: t in own ==> s.status[t] == Outside && s.arrived[t] == 0 && s.returned[t] == 0
  }

  ghost predicate Enabled(s: State, own: map<Task, Bits>, a: Action) {
    && SameTasks(s, own) && a.task in own
    && if a.Arrive? then s.status[a.task] == Outside else s.status[a.task].Released?
  }

  /** Statuses after the tasks of the woken waiters have been given the value. */
  ghost function Release(status: map<Task, Status>, woken: seq<Waiter>, value: Bits): map<Task, Status> {
    if woken == [] then status
    else
      var t := woken[0].task;
      Release(if t in status then status[t := Released(value)] else status, woken[1..], value)
  }

  /** A task calls xEventGroupSync with its own bits, the whole mask and no time limit; or a released
      task gets to run and returns. */
  ghost function Step(s: State, own: map<Task, Bits>, mask: Bits, a: Action): State
    requires Enabled(s, own, a)
  {
    var t := a.task;
    match a
    case Arrive(_) =>
      var (g', outcome) := Sync(s.g, t, own[t], mask, true);
      var status := Release(s.status, Woken(s.g, own[t]), s.g.bits + own[t]);
      if outcome.Blocked? then State(g', status[t := Inside], s.arrived[t := s.arrived[t] + 1], s.returned)
      else State(g', status[t := Outside], s.arrived[t := s.arrived[t] + 1], s.returned[t := s.returned[t] + 1])
    case Return(_) =>
      State(s.g, s.status[t := Outside], s.arrived, s.returned[t := s.returned[t] + 1])
  }

  /** Where a task stands relative to the current round: outside and not yet arrived in it, blocked
      in it, or released from the one before with the full mask. */
  ghost predicate InRound(s: State, mask: Bits, round: nat, t: Task)
    requires t in s.status && t in s.arrived && t in s.returned
  {
    match s.status[t]
    case Outside => s.arrived[t] == round && s.returned[t] == round
    case Inside => s.arrived[t] == round + 1 && s.returned[t] == round
    case Released(value) => s.arrived[t] == round && s.returned[t] + 1 == round && value == mask
  }

  ghost predicate RoundsOk(s: State, own: map<Task, Bits>, mask: Bits, round: nat) {
    SameTasks(s, own) && forall t :: t in own ==> InRound(s, mask, round, t)
  }

  ghost predicate IsInside(s: State, t: Task) { t in s.status && s.status[t] == Inside }

  /** The group's bits are those of the tasks inside. */
  ghost predicate BitsOk(s: State, own: map<Task, Bits>) {
    && (forall t :: t in own && IsInside(s, t) ==> own[t] <= s.g.bits)
    && (forall b :: b in s.g.bits ==> exists t :: t in own && IsInside(s, t) && b in own[t])
  }

  /** The list holds exactly the tasks inside. */
  ghost predicate WaitersOk(s: State, own: map<Task, Bits>, mask: Bits) {
    && (forall w :: w in s.g.waiting ==> w == Waiter(w.task, mask, true, true) && w.task in own && IsInside(s, w.task))
    && (forall t :: t in own && IsInside(s, t) ==> Waiter(t, mask, true, true) in s.g.waiting)
  }

  ghost predicate Inv(s: State, own: map<Task, Bits>, mask: Bits, round: nat) {
    && Setup(own, mask) && RoundsOk(s, own, mask, round) && BitsOk(s, own) && WaitersOk(s, own, mask)
    && (own != map[] ==> exists t :: t in own && !IsInside(s, t))
  }

  lemma InitialInv(s: State, own: map<Task, Bits>, mask: Bits)
    requires Initial(s, own) && Setup(own, mask)
    ensures Inv(s, own, mask, 0)
  {
    if own != map[] { var t :| t in own; assert !IsInside(s, t); }
  }

  /** The arrival of t completes the mask. */
  ghost predicate Completes(s: State, own: map<Task, Bits>, mask: Bits, t: Task)
    requires t in own
  {
    (s.g.bits + own[t]) * mask == mask
  }

  /** The mask is complete exactly when everyone else is inside. */
  lemma CompleteMeansAllInside(s: State, own: map<Task, Bits>, mask: Bits, round: nat, t: Task)
    requires Inv(s, own, mask, round) && t in own && !IsInside(s, t)
    ensures Completes(s, own, mask, t) <==> forall u :: u in own && u != t ==> IsInside(s, u)
  {
    var now := s.g.bits + own[t];
    if forall u :: u in own && u != t ==> IsInside(s, u) {
      forall b | b in mask ensures b in now {
        var u :| u in own && b in own[u];
        assert u == t || IsInside(s, u);
      }
      assert now * mask == mask;
    }
    if now * mask == mask {
      forall u | u in own && u != t ensures IsInside(s, u) {
        var b :| b in own[u];
        assert b in now * mask;
        assert b in s.g.bits || u == t;
      }
    }
  }

  lemma {:induction false} ReleaseEffect(status: map<Task, Status>, woken: seq<Waiter>, value: Bits)
    ensures Release(status, woken, value).Keys == status.Keys
    ensures forall t :: t in status ==>
              Release(status, woken, value)[t]
              == if exists w :: w in woken && w.task == t then Released(value) else status[t]
  {
    if woken != [] {
      assert forall w :: w in woken <==> w == woken[0] || w in woken[1..];
      var t := woken[0].task;
      ReleaseEffect(if t in status then status[t := Released(value)] else status, woken[1..], value);
    }
  }

  /** An arrival that does not complete the mask wakes nobody and blocks. */
  lemma ArriveEarly(s: State, own: map<Task, Bits>, mask: Bits, t: Task)
    requires WaitersOk(s, own, mask) && Enabled(s, own, Arrive(t)) && !Completes(s, own, mask, t)
    ensures Step(s, own, mask, Arrive(t))
            == State(Group(s.g.bits + own[t], s.g.waiting + [Waiter(t, mask, true, true)]),
                     s.status[t := Inside], s.arrived[t := s.arrived[t] + 1], s.returned)
  {
    EarlySync(s, own, mask, t);
    hide Sync, EventGroupState.Woken, WaitersOk, Completes;
    var none: seq<Waiter> := [];
    assert Release(s.status, none, s.g.bits + own[t]) == s.status;
  }

  /** For the group: nobody's condition holds, the caller's included. */
  lemma EarlySync(s: State, own: map<Task, Bits>, mask: Bits, t: Task)
    requires WaitersOk(s, own, mask) && t in own && !Completes(s, own, mask, t)
    ensures EventGroupState.Woken(s.g, own[t]) == []
    ensures var w := Waiter(t, mask, true, true);
            Sync(s.g, t, own[t], mask, true) == (Group(s.g.bits + own[t], s.g.waiting + [w]), Blocked(w))
  {
    NobodyMet(s.g, own[t]);
    hide SetBits, Select, EventGroupState.Woken;
    assert (s.g.bits + own[t]) * mask != mask;
  }

  lemma NobodyMet(g: Group, bits: Bits)
    requires forall w :: w in g.waiting ==> !Met(w, g.bits + bits)
    ensures SetBits(g, bits) == Group(g.bits + bits, g.waiting) && EventGroupState.Woken(g, bits) == []
  {
    SelectMembers(g.waiting, g.bits + bits, true);
    SelectMembers(g.waiting, g.bits + bits, false);
  }

  lemma LastStep(s: State, own: map<Task, Bits>, mask: Bits, t: Task)
    requires WaitersOk(s, own, mask) && Enabled(s, own, Arrive(t)) && s.g.bits + own[t] == mask
    ensures Step(s, own, mask, Arrive(t))
            == State(Group({}, []), Release(s.status, s.g.waiting, mask)[t := Outside],
                     s.arrived[t := s.arrived[t] + 1], s.returned[t := s.returned[t] + 1])
  {
    SelectMembers(s.g.waiting, mask, true);
    SelectMembers(s.g.waiting, mask, false);
    assert mask * mask == mask;
    assert Woken(s.g, own[t]) == s.g.waiting && SetBits(s.g, own[t]).waiting == [];
    assert SetBits(s.g, own[t]).bits - mask == {};
  }

  /** The last arrival wakes everyone with the full mask, leaves the bits clear and returns at once. */
  lemma ArriveLast(s: State, own: map<Task, Bits>, mask: Bits, t: Task)
    requires WaitersOk(s, own, mask) && Enabled(s, own, Arrive(t)) && s.g.bits + own[t] == mask
    requires forall u :: u in own && u != t ==> IsInside(s, u)
    ensures var s' := Step(s, own, mask, Arrive(t));
            && s' == State(Group({}, []), s'.status, s.arrived[t := s.arrived[t] + 1], s.returned[t := s.returned[t] + 1])
            && s'.status.Keys == own.Keys
            && forall u :: u in own ==> s'.status[u] == if u == t then Outside else Released(mask)
  {
    LastStep(s, own, mask, t);
    ReleaseEffect(s.status, s.g.waiting, mask);
    forall u | u in own && u != t ensures Release(s.status, s.g.waiting, mask)[u] == Released(mask) {
      assert IsInside(s, u);
      assert Waiter(u, mask, true, true) in s.g.waiting;
    }
  }

  lemma BitsAreMask(s: State, own: map<Task, Bits>, mask: Bits, t: Task)
    requires Setup(own, mask) && BitsOk(s, own) && t in own && Completes(s, own, mask, t)
    ensures s.g.bits + own[t] == mask
  {
    var now := s.g.bits + own[t];
    forall b | b in now ensures b in mask {
      if b in s.g.bits {
        var u :| u in own && IsInside(s, u) && b in own[u];
        assert b in own[u] && own[u] <= mask;
      }
    }
    assert now * mask == now;
  }

  lemma ArriveInv(s: State, own: map<Task, Bits>, mask: Bits, round: nat, t: Task)
    requires Inv(s, own, mask, round) && Enabled(s, own, Arrive(t))
    ensures Inv(Step(s, own, mask, Arrive(t)), own, mask, if Completes(s, own, mask, t) then round + 1 else round)
  {
    CompleteMeansAllInside(s, own, mask, round, t);
    if Completes(s, own, mask, t) {
      LastInv(s, own, mask, round, t);
    } else {
      ArriveEarly(s, own, mask, t);
      var s' := Step(s, own, mask, Arrive(t));
      EarlyRounds(s, s', own, mask, round, t);
      EarlyGroup(s, s', own, mask, t);
    }
  }

  lemma LastInv(s: State, own: map<Task, Bits>, mask: Bits, round: nat, t: Task)
    requires Inv(s, own, mask, round) && Enabled(s, own, Arrive(t)) && Completes(s, own, mask, t)
    ensures Inv(Step(s, own, mask, Arrive(t)), own, mask, round + 1)
  {
    var s' := Step(s, own, mask, Arrive(t));
    CompleteMeansAllInside(s, own, mask, round, t);
    BitsAreMask(s, own, mask, t);
    ArriveLast(s, own, mask, t);
    LastRounds(s, s', own, mask, round, t);
  }

  lemma LastRounds(s: State, s': State, own: map<Task, Bits>, mask: Bits, round: nat, t: Task)
    requires RoundsOk(s, own, mask, round) && t in own && s.status[t] == Outside
    requires forall u :: u in own && u != t ==> IsInside(s, u)
    requires s'.status.Keys == own.Keys && s'.g == Group({}, [])
    requires s'.arrived == s.arrived[t := s.arrived[t] + 1] && s'.returned == s.returned[t := s.returned[t] + 1]
    requires forall u :: u in own ==> s'.status[u] == if u == t then Outside else Released(mask)
    ensures RoundsOk(s', own, mask, round + 1) && BitsOk(s', own) && WaitersOk(s', own, mask)
    ensures forall u :: u in own ==> !IsInside(s', u)
  {
    forall u | u in own ensures InRound(s', mask, round + 1, u) && !IsInside(s', u) {
      assert InRound(s, mask, round, u);
      assert u == t || IsInside(s, u);
    }
  }

  lemma EarlyRounds(s: State, s': State, own: map<Task, Bits>, mask: Bits, round: nat, t: Task)
    requires RoundsOk(s, own, mask, round) && t in own && s.status[t] == Outside
    requires s'.status == s.status[t := Inside]
    requires s'.arrived == s.arrived[t := s.arrived[t] + 1] && s'.returned == s.returned
    ensures RoundsOk(s', own, mask, round)
    ensures forall u :: IsInside(s', u) <==> IsInside(s, u) || u == t
  {
    forall u | u in own ensures InRound(s', mask, round, u) { assert InRound(s, mask, round, u); }
  }

  lemma EarlyGroup(s: State, s': State, own: map<Task, Bits>, mask: Bits, t: Task)
    requires BitsOk(s, own) && WaitersOk(s, own, mask) && t in own
    requires forall u :: IsInside(s', u) <==> IsInside(s, u) || u == t
    requires s'.g == Group(s.g.bits + own[t], s.g.waiting + [Waiter(t, mask, true, true)])
    ensures BitsOk(s', own) && WaitersOk(s', own, mask)
  {
    forall b | b in s'.g.bits ensures exists u :: u in own && IsInside(s', u) && b in own[u] {
      if b in s.g.bits {
        var u :| u in own && IsInside(s, u) && b in own[u];
        assert IsInside(s', u);
      } else {
        assert IsInside(s', t) && b in own[t];
      }
    }
  }

  lemma ReturnInv(s: State, own: map<Task, Bits>, mask: Bits, round: nat, t: Task)
    requires Inv(s, own, mask, round) && Enabled(s, own, Return(t))
    ensures Inv(Step(s, own, mask, Return(t)), own, mask, round)
  {
    var s' := Step(s, own, mask, Return(t));
    ReturnRounds(s, own, mask, round, t);
    SameInsideKeepsGroup(s, s', own, mask);
    assert t in own && !IsInside(s', t);
  }

  lemma ReturnRounds(s: State, own: map<Task, Bits>, mask: Bits, round: nat, t: Task)
    requires RoundsOk(s, own, mask, round) && Enabled(s, own, Return(t))
    ensures var s' := Step(s, own, mask, Return(t));
            && RoundsOk(s', own, mask, round) && s'.g == s.g && forall u :: IsInside(s', u) <==> IsInside(s, u)
  {
    var s' := Step(s, own, mask, Return(t));
    forall u | u in own ensures InRound(s', mask, round, u) { assert InRound(s, mask, round, u); }
  }

  lemma SameInsideKeepsGroup(s: State, s': State, own: map<Task, Bits>, mask: Bits)
    requires BitsOk(s, own) && WaitersOk(s, own, mask) && s'.g == s.g
    requires forall u :: IsInside(s', u) <==> IsInside(s, u)
    ensures BitsOk(s', own) && WaitersOk(s', own, mask)
  {
    forall b | b in s'.g.bits ensures exists u :: u in own && IsInside(s', u) && b in own[u] {
      var u :| u in own && IsInside(s, u) && b in own[u];
      assert IsInside(s', u);
    }
  }

  // ---------------------------------------------------------------- runs

  ghost predicate Reaches(s: State, own: map<Task, Bits>, mask: Bits, actions: seq<Action>, s': State)
    decreases |actions|
  {
    if actions == [] then s == s'
    else Enabled(s, own, actions[0]) && Reaches(Step(s, own, mask, actions[0]), own, mask, actions[1..], s')
  }

  lemma {:induction false} ReachableInv(s: State, own: map<Task, Bits>, mask: Bits, round: nat,
                                        actions: seq<Action>, s': State)
    returns (round': nat)
    requires Inv(s, own, mask, round) && Reaches(s, own, mask, actions, s')
    ensures Inv(s', own, mask, round') && round <= round'
    decreases |actions|
  {
    round' := round;
    if actions != [] {
      var next := StepInv(s, own, mask, round, actions[0]);
      round' := ReachableInv(Step(s, own, mask, actions[0]), own, mask, next, actions[1..], s');
    }
  }

  lemma StepInv(s: State, own: map<Task, Bits>, mask: Bits, round: nat, a: Action) returns (round': nat)
    requires Inv(s, own, mask, round) && Enabled(s, own, a)
    ensures Inv(Step(s, own, mask, a), own, mask, round') && round <= round'
  {
    round' := round;
    if a.Arrive? {
      ArriveInv(s, own, mask, round, a.task);
      if Completes(s, own, mask, a.task) { round' := round + 1; }
    } else {
      ReturnInv(s, own, mask, round, a.task);
    }
  }

  /** The barrier is safe and reusable.  No task returns from its n-th call before every task has
      begun its n-th; no task is ever two calls ahead of another; whoever is released gets the full
      mask; and whenever nobody is inside, the mask is clear for the next round. */
  lemma BarrierHolds(s: State, own: map<Task, Bits>, mask: Bits, actions: seq<Action>, s': State)
    requires Initial(s, own) && Setup(own, mask) && Reaches(s, own, mask, actions, s')
    ensures SameTasks(s', own)
    ensures forall t, u :: t in own && u in own ==> s'.returned[t] <= s'.arrived[u]
    ensures forall t, u :: t in own && u in own ==> s'.arrived[t] <= s'.arrived[u] + 1
    ensures forall t :: t in own && s'.status[t].Released? ==> s'.status[t].value == mask
    ensures (forall t :: t in own ==> !IsInside(s', t)) ==> s'.g.bits == {}
  {
    InitialInv(s, own, mask);
    var round := ReachableInv(s, own, mask, 0, actions, s');
    forall t | t in own
      ensures s'.returned[t] <= round <= s'.arrived[t] <= round + 1
      ensures s'.status[t].Released? ==> s'.status[t].value == mask
    {
      assert InRound(s', mask, round, t);
    }
  }

  /** The barrier never has everyone waiting: some task can always arrive or return. */
  lemma NeverStuck(s: State, own: map<Task, Bits>, mask: Bits, actions: seq<Action>, s': State)
    requires Initial(s, own) && Setup(own, mask) && Reaches(s, own, mask, actions, s') && own != map[]
    ensures exists a: Action :: Enabled(s', own, a)
  {
    InitialInv(s, own, mask);
    var round := ReachableInv(s, own, mask, 0, actions, s');
    var t :| t in own && !IsInside(s', t);
    assert Enabled(s', own, if s'.status[t] == Outside then Arrive(t) else Return(t));
  }
}

/** The event group functions, updating the group in place. */
module EventGroups {
  import opened EventGroupState

  class EventGroup {
    var uxEventBits: Bits
    var xTasksWaitingForBits: seq<Waiter>

    ghost function View(): Group
      reads this
    {
      Group(uxEventBits, xTasksWaitingForBits)
    }

    /** xEventGroupCreate. */
    constructor ()
      ensures View() == Group({}, [])
    {
      uxEventBits, xTasksWaitingForBits := {}, [];
    }

    /** xEventGroupSetBits.  `unblocked` are the tasks given to the scheduler, in order, each with
        the value stored in its event list item. */
    method SetBits(uxBitsToSet: Bits) returns (unblocked: seq<(Task, Bits)>, uxReturn: Bits)
      modifies this
      ensures View() == EventGroupState.SetBits(old(View()), uxBitsToSet) && uxReturn == uxEventBits
      ensures unblocked == Deliveries(Woken(old(View()), uxBitsToSet), old(uxEventBits) + uxBitsToSet)
    {
      ghost var ws, now := xTasksWaitingForBits, uxEventBits + uxBitsToSet;
      unblocked := [];
      var uxBitsToClear: Bits := {};
      uxEventBits := uxEventBits + uxBitsToSet;
      var index := 0;
      ghost var done := 0;
      assert ws[..0] == [] && ws[0..] == ws;
      while index < |xTasksWaitingForBits|
        invariant Walked(ws, done, now, xTasksWaitingForBits, index, unblocked, uxBitsToClear) && uxEventBits == now
        decreases |ws| - done
      {
        var pxListItem := xTasksWaitingForBits[index];
        WalkStep(ws, done, now, xTasksWaitingForBits, index, unblocked, uxBitsToClear);
        if Matches(pxListItem, uxEventBits) {
          if pxListItem.clearOnExit {
            uxBitsToClear := uxBitsToClear + pxListItem.waitFor;
          }
          unblocked := unblocked + [(pxListItem.task, uxEventBits)];
          xTasksWaitingForBits := xTasksWaitingForBits[..index] + xTasksWaitingForBits[index + 1..];
        } else {
          index := index + 1;
        }
        done := done + 1;
      }
      assert ws[..done] == ws;
      uxEventBits := uxEventBits - uxBitsToClear;
      uxReturn := uxEventBits;
    }

    /** xEventGroupWaitBits up to blocking; the block time matters here only as zero or not. */
    method WaitBits(task: Task, uxBitsToWaitFor: Bits, xClearOnExit: bool, xWaitForAllBits: bool, xTicksToWait: nat)
      returns (outcome: Outcome)
      requires uxBitsToWaitFor != {}
      modifies this
      ensures (View(), outcome)
              == EventGroupState.WaitBits(old(View()), Waiter(task, uxBitsToWaitFor, xClearOnExit, xWaitForAllBits),
                                          xTicksToWait != 0)
    {
      var uxCurrentEventBits := uxEventBits;
      if TestWaitCondition(uxCurrentEventBits, uxBitsToWaitFor, xWaitForAllBits) {
        outcome := Returned(uxCurrentEventBits);
        if xClearOnExit {
          uxEventBits := uxEventBits - uxBitsToWaitFor;
        }
      } else if xTicksToWait == 0 {
        outcome := Returned(uxCurrentEventBits);
      } else {
        var waiter := Waiter(task, uxBitsToWaitFor, xClearOnExit, xWaitForAllBits);
        xTasksWaitingForBits := xTasksWaitingForBits + [waiter];
        outcome := Blocked(waiter);
      }
    }

    /** xEventGroupSync up to blocking. */
    method Sync(task: Task, uxBitsToSet: Bits, uxBitsToWaitFor: Bits, xTicksToWait: nat)
      returns (unblocked: seq<(Task, Bits)>, outcome: Outcome)
      requires uxBitsToWaitFor != {}
      modifies this
      ensures (View(), outcome)
              == EventGroupState.Sync(old(View()), task, uxBitsToSet, uxBitsToWaitFor, xTicksToWait != 0)
      ensures unblocked == Deliveries(Woken(old(View()), uxBitsToSet), old(uxEventBits) + uxBitsToSet)
    {
      var uxOriginalBitValue := uxEventBits;
      var current;
      unblocked, current := SetBits(uxBitsToSet);
      if (uxOriginalBitValue + uxBitsToSet) * uxBitsToWaitFor == uxBitsToWaitFor {
        outcome := Returned(uxOriginalBitValue + uxBitsToSet);
        uxEventBits := uxEventBits - uxBitsToWaitFor;
      } else if xTicksToWait != 0 {
        var waiter := Waiter(task, uxBitsToWaitFor, true, true);
        xTasksWaitingForBits := xTasksWaitingForBits + [waiter];
        outcome := Blocked(waiter);
      } else {
        outcome := Returned(uxEventBits);
      }
    }

    /** xEventGroupClearBits. */
    method ClearBits(uxBitsToClear: Bits) returns (uxReturn: Bits)
      modifies this
      ensures View() == EventGroupState.ClearBits(old(View()), uxBitsToClear) && uxReturn == old(uxEventBits)
    {
      uxReturn := uxEventBits;
      uxEventBits := uxEventBits - uxBitsToClear;
    }

    /** The critical section a timed-out task runs at the end of xEventGroupWaitBits or xEventGroupSync. */
    method ReturnAfterTimeout(waiter: Waiter) returns (uxReturn: Bits)
      modifies this
      ensures (View(), uxReturn) == AfterTimeout(old(View()), waiter)
    {
      uxReturn := uxEventBits;
      if TestWaitCondition(uxReturn, waiter.waitFor, waiter.all) {
        if waiter.clearOnExit {
          uxEventBits := uxEventBits - waiter.waitFor;
        }
      }
    }
  }

  /** The match test of the loop of xEventGroupSetBits. */
  predicate Matches(item: Waiter, bits: Bits) {
    if !item.all then item.waitFor * bits != {} else item.waitFor * bits == item.waitFor
  }

  ghost function Deliveries(woken: seq<Waiter>, value: Bits): seq<(Task, Bits)> {
    seq(|woken|, i requires 0 <= i < |woken| => (woken[i].task, value))
  }

  /** The loop has seen the first `done` of the waiters ws. */
  ghost predicate Walked(ws: seq<Waiter>, done: nat, now: Bits, list: seq<Waiter>, index: nat,
                         unblocked: seq<(Task, Bits)>, clear: Bits) {
    && done <= |ws|
    && list == Select(ws[..done], now, false) + ws[done..] && index == |Select(ws[..done], now, false)|
    && unblocked == Deliveries(Select(ws[..done], now, true), now)
    && clear == BitsToClear(Select(ws[..done], now, true))
  }

  lemma WalkStep(ws: seq<Waiter>, done: nat, now: Bits, list: seq<Waiter>, index: nat,
                 unblocked: seq<(Task, Bits)>, clear: Bits)
    requires Walked(ws, done, now, list, index, unblocked, clear) && index < |list|
    ensures done < |ws| && list[index] == ws[done] && Matches(list[index], now) == Met(ws[done], now)
    ensures var w := ws[done];
            if Met(w, now) then
              Walked(ws, done + 1, now, list[..index] + list[index + 1..], index, unblocked + [(w.task, now)],
                     if w.clearOnExit then clear + w.waitFor else clear)
            else Walked(ws, done + 1, now, list, index + 1, unblocked, clear)
  {
    var w, kept, woken := ws[done], Select(ws[..done], now, false), Select(ws[..done], now, true);
    assert w.waitFor * now == now * w.waitFor;
    assert ws[..done + 1] == ws[..done] + [w];
    SelectSnoc(ws[..done], w, now, true);
    SelectSnoc(ws[..done], w, now, false);
    BitsToClearSnoc(woken, w);
    assert ws[done..] == [w] + ws[done + 1..];
    assert list == (kept + [w]) + ws[done + 1..];
    assert woken + [] == woken && kept + [] == kept;
  }

  lemma {:induction false} SelectSnoc(ws: seq<Waiter>, w: Waiter, now: Bits, met: bool)
    ensures Select(ws + [w], now, met) == Select(ws, now, met) + (if Met(w, now) == met then [w] else [])
  {
    if ws == [] {
      assert [] + [w] == [w] && [w][1..] == [];
    } else {
      assert (ws + [w])[1..] == ws[1..] + [w];
      SelectSnoc(ws[1..], w, now, met);
    }
  }

  lemma {:induction false} BitsToClearSnoc(ws: seq<Waiter>, w: Waiter)
    ensures BitsToClear(ws + [w]) == BitsToClear(ws) + (if w.clearOnExit then w.waitFor else {})
  {
    if ws == [] {
      assert [] + [w] == [w] && [w][1..] == [];
    } else {
      assert (ws + [w])[1..] == ws[1..] + [w];
      BitsToClearSnoc(ws[1..], w);
    }
  }
}
