/** The order of a kernel list as values: where vListInsert puts an item, and the order in which
    listGET_OWNER_OF_NEXT_ENTRY will hand the items out. */
module ListOrder {
  import opened Sequences

  const MAX_DELAY: int := 0xFFFF_FFFF  // portMAX_DELAY, the value of the end marker

  /** The first position whose value exceeds v. */
  function InsertionPoint(values: seq<int>, v: int): (k: nat)
    ensures k <= |values| && (forall j :: 0 <= j < k ==> values[j] <= v)
    ensures k < |values| ==> v < values[k]
  {
    if values == [] || v < values[0] then 0 else 1 + InsertionPoint(values[1..], v)
  }

  ghost predicate Sorted(values: seq<int>) {
    forall i, j :: 0 <= i < j < |values| ==> values[i] <= values[j]
  }

  /** Inserting keeps a list sorted, behind every item of equal value: equal items stay in the
      order of their insertion. */
  lemma InsertionIsSortedAndStable(values: seq<int>, v: int)
    requires Sorted(values)
    ensures var k := InsertionPoint(values, v);
            && Sorted(InsertAt(values, k, v))
            && (forall j :: 0 <= j < |values| ==> (values[j] <= v <==> j < k))
  {
    var k := InsertionPoint(values, v);
    var r := InsertAt(values, k, v);
    forall i, j | 0 <= i < j < |r| ensures r[i] <= r[j] {
      var i', j' := if i < k then i else i - 1, if j < k then j else j - 1;
      assert i != k ==> r[i] == values[i'];
      assert j != k ==> r[j] == values[j'];
    }
  }

  /** The order of the walk: the items behind the index, then those before it, the item at the
      index last.  The ring is the end marker followed by the items. */
  ghost function Walk<T>(ring: seq<T>, pos: nat): seq<T>
    requires pos < |ring|
  {
    ring[pos + 1..] + ring[1..pos + 1]
  }

  /** One step of the walk: the next position, skipping the end marker. */
  function NextPos(n: nat, pos: nat): nat
    requires pos < n && n > 1
  {
    if pos + 1 == n then 1 else pos + 1
  }

  /** A step hands out the head of the walk and moves it to the tail. */
  lemma StepRotates<T>(ring: seq<T>, pos: nat)
    requires pos < |ring| && |ring| > 1
    ensures var w := Walk(ring, pos);
            && |w| == |ring| - 1 && ring[NextPos(|ring|, pos)] == w[0]
            && Walk(ring, NextPos(|ring|, pos)) == w[1..] + [w[0]]
  {
    if pos + 1 == |ring| {
      assert Walk(ring, pos) == ring[1..];
      assert Walk(ring, 1) == ring[2..] + [ring[1]];
    } else {
      assert ring[pos + 1..] == [ring[pos + 1]] + ring[pos + 2..];
      assert ring[1..pos + 2] == ring[1..pos + 1] + [ring[pos + 1]];
    }
  }

  /** The items handed out by n steps of a walk over a fixed list. */
  ghost function Visits<T>(w: seq<T>, n: nat): seq<T>
    decreases n
  {
    if n == 0 || w == [] then [] else [w[0]] + Visits(w[1..] + [w[0]], n - 1)
  }

  lemma {:induction false} VisitsPrefix<T>(a: seq<T>, b: seq<T>)
    ensures Visits(a + b, |a|) == a
  {
    if a == [] {
    } else {
      assert (a + b)[1..] + [(a + b)[0]] == a[1..] + (b + [a[0]]);
      VisitsPrefix(a[1..], b + [a[0]]);
    }
  }

  lemma {:induction false} VisitsRotate<T>(a: seq<T>, b: seq<T>, n: nat)
    requires |a| > 0
    ensures Visits(a + b, |a| + n) == a + Visits(b + a, n)
    decreases |a|
  {
    assert (a + b)[1..] + [(a + b)[0]] == a[1..] + (b + [a[0]]);
    if |a| == 1 {
      assert a[1..] + (b + [a[0]]) == b + a;
    } else {
      VisitsRotate(a[1..], b + [a[0]], n);
      assert (b + [a[0]]) + a[1..] == b + a;
    }
  }

  /** Fairness: any k consecutive steps over a fixed list of k items visit each item once, in ring
      order, wherever the walk starts. */
  lemma EveryoneOnce<T>(w: seq<T>, start: nat)
    requires start < |w|
    ensures var visits := Visits(w, start + |w|);
            |visits| == start + |w| && visits[start..] == w[start..] + w[..start]
  {
    var a, b := w[..start], w[start..];
    assert w == a + b;
    if start == 0 {
      VisitsPrefix(w, []);
      assert w + [] == w;
    } else {
      VisitsRotate(a, b, |w|);
      VisitsPrefix(b + a, []);
      assert (b + a) + [] == b + a && |b + a| == |w|;
      assert (a + (b + a))[start..] == b + a;
    }
  }

  /** Before the walk reaches it, an item added at its end is preceded by every item that was in the list. */
  lemma InsertEndWalk<T>(ring: seq<T>, pos: nat, x: T)
    requires pos < |ring|
    ensures pos == 0 ==> Walk(ring + [x], 0) == Walk(ring, 0) + [x]
    ensures pos > 0 ==>
              var w := Walk(ring, pos);
              && |w| > 0 && w[|w| - 1] == ring[pos]
              && Walk(InsertAt(ring, pos, x), pos + 1) == w[..|w| - 1] + [x] + [ring[pos]]
  {
    if pos > 0 {
      var r := InsertAt(ring, pos, x);
      assert r[pos + 2..] == ring[pos + 1..];
      assert r[1..pos + 2] == ring[1..pos] + [x] + [ring[pos]];
      assert ring[1..pos + 1] == ring[1..pos] + [ring[pos]];
    } else {
      assert (ring + [x])[1..] == ring[1..] + [x];
    }
  }

  /** Removing the item at ring position r only takes it out of the walk, the rest keeps its order. */
  lemma RemoveWalk<T>(ring: seq<T>, pos: nat, r: nat)
    requires pos < |ring| && 0 < r < |ring|
    ensures var pos' := if r <= pos then pos - 1 else pos;
            var k := if r > pos then r - pos - 1 else |ring| - pos - 1 + r - 1;
            && pos' < |ring| - 1 && k < |Walk(ring, pos)| && Walk(ring, pos)[k] == ring[r]
            && Walk(RemoveAt(ring, r), pos') == RemoveAt(Walk(ring, pos), k)
  {
    if r > pos { RemoveBehind(ring, pos, r); } else { RemoveAhead(ring, pos, r); }
  }

  lemma RemoveBehind<T>(ring: seq<T>, pos: nat, r: nat)
    requires pos < r < |ring|
    ensures var k := r - pos - 1;
            && pos < |ring| - 1 && k < |Walk(ring, pos)| && Walk(ring, pos)[k] == ring[r]
            && Walk(RemoveAt(ring, r), pos) == RemoveAt(Walk(ring, pos), k)
  {
    var a, b, k, left := ring[pos + 1..], ring[1..pos + 1], r - pos - 1, RemoveAt(ring, r);
    assert left[pos + 1..] == RemoveAt(a, k);
    assert left[1..pos + 1] == b;
    assert RemoveAt(a + b, k) == RemoveAt(a, k) + b by { RemoveFromFirst(a, b, k); }
    assert (a + b)[k] == a[k] == ring[r];
  }

  lemma RemoveAhead<T>(ring: seq<T>, pos: nat, r: nat)
    requires 0 < r <= pos < |ring|
    ensures var k := |ring| - pos - 1 + r - 1;
            && k < |Walk(ring, pos)| && Walk(ring, pos)[k] == ring[r]
            && Walk(RemoveAt(ring, r), pos - 1) == RemoveAt(Walk(ring, pos), k)
  {
    var a, b, left := ring[pos + 1..], ring[1..pos + 1], RemoveAt(ring, r);
    assert left[pos..] == a;
    assert left[1..pos] == RemoveAt(b, r - 1);
    assert RemoveAt(a + b, |a| + (r - 1)) == a + RemoveAt(b, r - 1) by { RemoveFromSecond(a, b, r - 1); }
    assert (a + b)[|a| + (r - 1)] == b[r - 1] == ring[r];
  }

  lemma RemoveFromFirst<T>(a: seq<T>, b: seq<T>, k: nat)
    requires k < |a|
    ensures RemoveAt(a + b, k) == RemoveAt(a, k) + b && (a + b)[k] == a[k]
  {
  }

  lemma RemoveFromSecond<T>(a: seq<T>, b: seq<T>, k: nat)
    requires k < |b|
    ensures RemoveAt(a + b, |a| + k) == a + RemoveAt(b, k) && (a + b)[|a| + k] == b[k]
  {
  }
}

/** The intrusive list of lib/FreeRTOS-Kernel/list.c: a doubly linked ring through an end marker,
    with an index that walks it. */
module KernelList {
  import opened ListOrder
  import opened Sequences

  class ListItem {
    var xItemValue: int
    var pxNext: ListItem?
    var pxPrevious: ListItem?
    var pxContainer: List?

    /** vListInitialiseItem. */
    constructor (value: int)
      ensures xItemValue == value && pxContainer == null
    {
      xItemValue := value;
      pxNext, pxPrevious, pxContainer := null, null, null;
    }
  }

  ghost function Succ(i: nat, n: nat): nat
    requires i < n
  {
    if i + 1 == n then 0 else i + 1
  }

  ghost function Pred(i: nat, n: nat): nat
    requires i < n
  {
    if i == 0 then n - 1 else i - 1
  }

  ghost predicate NextLinked(ring: seq<ListItem>)
    reads ring`pxNext
  {
    forall i {:trigger ring[i].pxNext} :: 0 <= i < |ring| ==> ring[i].pxNext == ring[Succ(i, |ring|)]
  }

  ghost predicate PreviousLinked(ring: seq<ListItem>)
    reads ring`pxPrevious
  {
    forall i {:trigger ring[i].pxPrevious} :: 0 <= i < |ring| ==> ring[i].pxPrevious == ring[Pred(i, |ring|)]
  }

  /** The items are distinct and linked both ways in sequence order, the last with the first. */
  ghost predicate Linked(ring: seq<ListItem>)
    reads ring`pxNext, ring`pxPrevious
  {
    Distinct(ring) && NextLinked(ring) && PreviousLinked(ring)
  }

  lemma LinkedIsDistinct(ring: seq<ListItem>)
    requires Linked(ring)
    ensures Distinct(ring)
  {
  }

  lemma NextAfterInsert(ring: seq<ListItem>, at: nat, x: ListItem)
    requires 0 < at <= |ring|
    requires forall i {:trigger ring[i].pxNext} :: 0 <= i < |ring| && i != at - 1 ==>
               ring[i].pxNext == ring[Succ(i, |ring|)]
    requires ring[at - 1].pxNext == x && x.pxNext == ring[Succ(at - 1, |ring|)]
    ensures NextLinked(InsertAt(ring, at, x))
  {
    var n, after := |ring|, InsertAt(ring, at, x);
    forall i | 0 <= i < n + 1 ensures after[i].pxNext == after[Succ(i, n + 1)] {
      if i < at {
        assert after[i] == ring[i];
      } else if i > at {
        assert after[i] == ring[i - 1];
      }
    }
  }

  lemma PreviousAfterInsert(ring: seq<ListItem>, at: nat, x: ListItem)
    requires 0 < at <= |ring|
    requires forall i {:trigger ring[i].pxPrevious} :: 0 <= i < |ring| && i != Succ(at - 1, |ring|) ==>
               ring[i].pxPrevious == ring[Pred(i, |ring|)]
    requires ring[Succ(at - 1, |ring|)].pxPrevious == x && x.pxPrevious == ring[at - 1]
    ensures PreviousLinked(InsertAt(ring, at, x))
  {
    var n, after := |ring|, InsertAt(ring, at, x);
    forall i | 0 <= i < n + 1 ensures after[i].pxPrevious == after[Pred(i, n + 1)] {
      if i < at {
        assert after[i] == ring[i];
      } else if i > at {
        assert after[i] == ring[i - 1];
      }
    }
  }

  lemma NextAfterRemove(ring: seq<ListItem>, at: nat)
    requires 0 < at < |ring|
    requires forall i {:trigger ring[i].pxNext} :: 0 <= i < |ring| && i != at - 1 ==>
               ring[i].pxNext == ring[Succ(i, |ring|)]
    requires ring[at - 1].pxNext == ring[Succ(at, |ring|)]
    ensures NextLinked(RemoveAt(ring, at))
  {
    var n, after := |ring|, RemoveAt(ring, at);
    forall i | 0 <= i < n - 1 ensures after[i].pxNext == after[Succ(i, n - 1)] {
      if i < at {
        assert after[i] == ring[i];
      } else {
        assert after[i] == ring[i + 1];
      }
    }
  }

  lemma PreviousAfterRemove(ring: seq<ListItem>, at: nat)
    requires 0 < at < |ring|
    requires forall i {:trigger ring[i].pxPrevious} :: 0 <= i < |ring| && i != Succ(at, |ring|) ==>
               ring[i].pxPrevious == ring[Pred(i, |ring|)]
    requires ring[Succ(at, |ring|)].pxPrevious == ring[at - 1]
    ensures PreviousLinked(RemoveAt(ring, at))
  {
    var n, after := |ring|, RemoveAt(ring, at);
    forall i | 0 <= i < n - 1 ensures after[i].pxPrevious == after[Pred(i, n - 1)] {
      if i < at {
        assert after[i] == ring[i];
      } else {
        assert after[i] == ring[i + 1];
      }
    }
  }

  /** The four pointer writes both insertions make: the item goes in behind `pxIterator`. */
  method WriteLinks(pxNewListItem: ListItem, pxIterator: ListItem)
    requires pxIterator != pxNewListItem && pxIterator.pxNext != null && pxIterator.pxNext != pxNewListItem
    modifies pxNewListItem`pxNext, pxNewListItem`pxPrevious, pxIterator`pxNext, pxIterator.pxNext`pxPrevious
    ensures pxNewListItem.pxNext == old(pxIterator.pxNext) && pxNewListItem.pxPrevious == pxIterator
    ensures pxIterator.pxNext == pxNewListItem && old(pxIterator.pxNext).pxPrevious == pxNewListItem
  {
    pxNewListItem.pxNext := pxIterator.pxNext;
    pxNewListItem.pxNext.pxPrevious := pxNewListItem;
    pxNewListItem.pxPrevious := pxIterator;
    pxIterator.pxNext := pxNewListItem;
  }

  method LinkIn(pxNewListItem: ListItem, pxIterator: ListItem, ghost ring: seq<ListItem>, ghost at: nat)
    requires Linked(ring) && pxNewListItem !in ring && 0 < at <= |ring| && pxIterator == ring[at - 1]
    modifies ring`pxNext, ring`pxPrevious, pxNewListItem`pxNext, pxNewListItem`pxPrevious
    ensures Linked(InsertAt(ring, at, pxNewListItem))
  {
    assert ring[at - 1].pxNext == ring[Succ(at - 1, |ring|)];
    WriteLinks(pxNewListItem, pxIterator);
    InsertDistinct(ring, at, pxNewListItem);
    NextAfterInsert(ring, at, pxNewListItem);
    PreviousAfterInsert(ring, at, pxNewListItem);
  }

  /** The two pointer writes of uxListRemove. */
  method Unlink(pxItemToRemove: ListItem, ghost ring: seq<ListItem>, ghost at: nat)
    requires Linked(ring) && 0 < at < |ring| && pxItemToRemove == ring[at]
    modifies ring`pxNext, ring`pxPrevious
    ensures Linked(RemoveAt(ring, at))
    ensures pxItemToRemove.pxPrevious == ring[at - 1]
  {
    assert ring[at].pxNext == ring[Succ(at, |ring|)] && ring[at].pxPrevious == ring[Pred(at, |ring|)];
    pxItemToRemove.pxNext.pxPrevious := pxItemToRemove.pxPrevious;
    pxItemToRemove.pxPrevious.pxNext := pxItemToRemove.pxNext;
    RemoveDistinct(ring, at);
    NextAfterRemove(ring, at);
    PreviousAfterRemove(ring, at);
  }

  class List {
    var uxNumberOfItems: nat
    var pxIndex: ListItem
    const xListEnd: ListItem
    ghost var ring: seq<ListItem>  // the end marker, then the items in list order
    ghost var pos: nat             // where pxIndex points

    ghost predicate Valid()
      reads this, ring
    {
      && |ring| == uxNumberOfItems + 1 && ring[0] == xListEnd && Linked(ring)
      && pos < |ring| && pxIndex == ring[pos]
      && xListEnd.xItemValue == MAX_DELAY
      && (forall x :: x in ring && x != xListEnd ==> x.pxContainer == this && x.xItemValue <= MAX_DELAY)
    }

    /** The list's items in order. */
    ghost function Items(): seq<ListItem>
      requires Valid()
      reads this, ring
    {
      ring[1..]
    }

    ghost function Values(): (values: seq<int>)
      requires Valid()
      reads this, ring
      ensures |values| == uxNumberOfItems
      ensures forall i :: 0 <= i < |values| ==> values[i] == ring[i + 1].xItemValue
    {
      seq(uxNumberOfItems, i requires 0 <= i < uxNumberOfItems && Valid() reads this, ring => ring[i + 1].xItemValue)
    }

    /** vListInitialise. */
    constructor ()
      ensures Valid() && Items() == [] && fresh(xListEnd) && xListEnd.xItemValue == 0xFFFF_FFFF
    {
      var end := new ListItem(MAX_DELAY);
      end.pxNext, end.pxPrevious := end, end;
      xListEnd, pxIndex := end, end;
      uxNumberOfItems := 0;
      ring, pos := [end], 0;
    }

    /** What both insertions end with. */
    method Splice(pxNewListItem: ListItem, pxIterator: ListItem, ghost at: nat)
      requires Valid() && pxNewListItem !in ring && pxNewListItem.xItemValue <= MAX_DELAY
      requires 0 < at <= |ring| && pxIterator == ring[at - 1]
      modifies this, ring`pxNext, ring`pxPrevious
      modifies pxNewListItem`pxNext, pxNewListItem`pxPrevious, pxNewListItem`pxContainer
      ensures Valid() && ring == InsertAt(old(ring), at, pxNewListItem) && pxIndex == old(pxIndex)
      ensures pos == if at <= old(pos) then old(pos) + 1 else old(pos)
      ensures pxNewListItem.pxContainer == this
    {
      hide Linked;
      LinkedIsDistinct(ring);
      InsertDistinct(ring, at, pxNewListItem);
      ghost var after, pos' := InsertAt(ring, at, pxNewListItem), if at <= pos then pos + 1 else pos;
      assert after[0] == xListEnd && after[pos'] == pxIndex;
      LinkIn(pxNewListItem, pxIterator, ring, at);
      pxNewListItem.pxContainer := this;
      uxNumberOfItems := uxNumberOfItems + 1;
      ring, pos := after, pos';
    }

    /** vListInsertEnd: in front of the index, so the item is the last the walk comes to. */
    method InsertEnd(pxNewListItem: ListItem)
      requires Valid() && pxNewListItem !in ring && pxNewListItem.xItemValue <= MAX_DELAY
      modifies this, ring`pxNext, ring`pxPrevious
      modifies pxNewListItem`pxNext, pxNewListItem`pxPrevious, pxNewListItem`pxContainer
      ensures Valid() && pxIndex == old(pxIndex) && pxNewListItem.pxContainer == this
      ensures old(pos) == 0 ==> ring == old(ring) + [pxNewListItem] && pos == 0
      ensures old(pos) > 0 ==> ring == InsertAt(old(ring), old(pos), pxNewListItem) && pos == old(pos) + 1
    {
      ghost var at := if pos == 0 then |ring| else pos;
      assert Pred(pos, |ring|) == at - 1;
      Splice(pxNewListItem, pxIndex.pxPrevious, at);
    }

    /** The search of vListInsert: the item behind which a value belongs. */
    method FindPlace(xValueOfInsertion: int) returns (pxIterator: ListItem)
      requires Valid() && xValueOfInsertion <= MAX_DELAY
      ensures pxIterator == ring[InsertionPoint(Values(), xValueOfInsertion)]
    {
      ghost var values := Values();
      ghost var i := 0;
      if xValueOfInsertion == MAX_DELAY {
        assert xListEnd.pxPrevious == ring[Pred(0, |ring|)];
        pxIterator := xListEnd.pxPrevious;
        i := |ring| - 1;
      } else {
        pxIterator := xListEnd;
        assert ring[i].pxNext == ring[Succ(i, |ring|)];
        while pxIterator.pxNext.xItemValue <= xValueOfInsertion
          invariant i < |ring| && pxIterator == ring[i] && pxIterator.pxNext == ring[Succ(i, |ring|)]
          invariant forall j :: 0 <= j < i ==> values[j] <= xValueOfInsertion
          decreases |ring| - i
        {
          pxIterator := pxIterator.pxNext;
          i := i + 1;
          assert ring[i].pxNext == ring[Succ(i, |ring|)];
        }
      }
      InsertionPointIs(values, xValueOfInsertion, i);
    }

    /** vListInsert: in value order, behind the items of equal value. */
    method Insert(pxNewListItem: ListItem)
      requires Valid() && pxNewListItem !in ring && pxNewListItem.xItemValue <= MAX_DELAY
      modifies this, ring`pxNext, ring`pxPrevious
      modifies pxNewListItem`pxNext, pxNewListItem`pxPrevious, pxNewListItem`pxContainer
      ensures Valid() && pxIndex == old(pxIndex) && pxNewListItem.pxContainer == this
      ensures var k := InsertionPoint(old(Values()), old(pxNewListItem.xItemValue));
              && ring == InsertAt(old(ring), k + 1, pxNewListItem)
              && Values() == InsertAt(old(Values()), k, old(pxNewListItem.xItemValue))
              && pos == if k < old(pos) then old(pos) + 1 else old(pos)
    {
      hide Linked, InsertionPoint;
      var pxIterator := FindPlace(pxNewListItem.xItemValue);
      ghost var before, values, k := ring, Values(), InsertionPoint(Values(), pxNewListItem.xItemValue);
      Splice(pxNewListItem, pxIterator, k + 1);
      forall i | 0 <= i < uxNumberOfItems
        ensures Values()[i] == InsertAt(values, k, pxNewListItem.xItemValue)[i]
      {
        if i < k { assert ring[i + 1] == before[i + 1]; } else if i > k { assert ring[i + 1] == before[i]; }
      }
    }

    /** uxListRemove. */
    method Remove(pxItemToRemove: ListItem, ghost at: nat) returns (left: nat)
      requires Valid() && 0 < at < |ring| && pxItemToRemove == ring[at]
      modifies this, ring`pxNext, ring`pxPrevious, pxItemToRemove`pxContainer
      ensures Valid() && ring == RemoveAt(old(ring), at) && pos == if at <= old(pos) then old(pos) - 1 else old(pos)
      ensures left == uxNumberOfItems && pxItemToRemove.pxContainer == null
    {
      hide Linked;
      LinkedIsDistinct(ring);
      RemoveDistinct(ring, at);
      assert pxIndex == pxItemToRemove <==> pos == at;
      ghost var pos' := if at <= pos then pos - 1 else pos;
      assert RemoveAt(ring, at)[pos'] == if pos == at then ring[at - 1] else pxIndex;
      Unlink(pxItemToRemove, ring, at);
      if pxIndex == pxItemToRemove {
        pxIndex := pxItemToRemove.pxPrevious;
      }
      pxItemToRemove.pxContainer := null;
      uxNumberOfItems := uxNumberOfItems - 1;
      ring := RemoveAt(ring, at);
      pos := pos';
      left := uxNumberOfItems;
    }

    /** listGET_OWNER_OF_NEXT_ENTRY: advances the index, past the end marker if need be. */
    method GetNext() returns (item: ListItem)
      requires Valid() && uxNumberOfItems > 0
      modifies this`pxIndex, this`pos
      ensures Valid() && ring == old(ring) && pos == NextPos(|ring|, old(pos)) && item == ring[pos]
      ensures item == old(Walk(ring, pos))[0] && Walk(ring, pos) == old(Walk(ring, pos))[1..] + [item]
    {
      StepRotates(ring, pos);
      assert ring[pos].pxNext == ring[Succ(pos, |ring|)];
      assert ring[0].pxNext == ring[Succ(0, |ring|)];
      pxIndex := pxIndex.pxNext;
      if pxIndex == xListEnd {
        pxIndex := pxIndex.pxNext;
      }
      pos := NextPos(|ring|, pos);
      item := pxIndex;
    }
  }

  lemma {:induction false} InsertionPointIs(values: seq<int>, v: int, k: nat)
    requires k <= |values| && (forall j :: 0 <= j < k ==> values[j] <= v) && (k < |values| ==> v < values[k])
    ensures InsertionPoint(values, v) == k
  {
  }
}
