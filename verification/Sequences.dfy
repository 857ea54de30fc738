/** What the lists and queues of the other modules share: sequences of distinct items. */
module Sequences {

  datatype Option<+T> = None | Some(value: T)

  ghost predicate Distinct<T>(s: seq<T>) {
    forall i, j :: 0 <= i < j < |s| ==> s[i] != s[j]
  }

  function InsertAt<T>(s: seq<T>, k: nat, x: T): (r: seq<T>)
    requires k <= |s|
    ensures |r| == |s| + 1
  {
    s[..k] + [x] + s[k..]
  }

  function RemoveAt<T>(s: seq<T>, k: nat): (r: seq<T>)
    requires k < |s|
    ensures |r| == |s| - 1
  {
    s[..k] + s[k + 1..]
  }

  /** Unlinking x, wherever it is. */
  function Without<T(==)>(s: seq<T>, x: T): seq<T> {
    if s == [] then [] else (if s[0] == x then [] else [s[0]]) + Without(s[1..], x)
  }

  lemma InsertDistinct<T>(s: seq<T>, k: nat, x: T)
    requires k <= |s| && Distinct(s) && x !in s
    ensures Distinct(InsertAt(s, k, x)) && forall y :: y in InsertAt(s, k, x) <==> y in s || y == x
  {
    assert s == s[..k] + s[k..];
  }

  lemma RemoveDistinct<T>(s: seq<T>, k: nat)
    requires k < |s| && Distinct(s)
    ensures Distinct(RemoveAt(s, k)) && forall y :: y in RemoveAt(s, k) <==> y in s && y != s[k]
  {
    forall y | y in s && y != s[k] ensures y in RemoveAt(s, k) {
      var j :| 0 <= j < |s| && s[j] == y;
      assert RemoveAt(s, k)[if j < k then j else j - 1] == y;
    }
  }

  lemma WithoutCons<T>(y: T, s: seq<T>, x: T)
    ensures Without([y] + s, x) == (if y == x then [] else [y]) + Without(s, x)
  {
    assert ([y] + s)[1..] == s;
  }

  lemma {:induction false} WithoutMembers<T>(s: seq<T>, x: T)
    ensures forall y :: y in Without(s, x) <==> y in s && y != x
    ensures x !in s ==> Without(s, x) == s
  {
    if s != [] {
      assert s == [s[0]] + s[1..];
      WithoutMembers(s[1..], x);
    }
  }

  lemma {:induction false} WithoutDistinct<T>(s: seq<T>, x: T)
    requires Distinct(s)
    ensures Distinct(Without(s, x))
  {
    if s != [] {
      assert s[0] !in s[1..];
      WithoutDistinct(s[1..], x);
      WithoutMembers(s[1..], x);
      DistinctCons(s[0], Without(s[1..], x));
    }
  }

  lemma DistinctCons<T>(x: T, s: seq<T>)
    requires Distinct(s)
    ensures x !in s ==> Distinct([x] + s)
    ensures Distinct([] + s)
  {
    assert [] + s == s;
  }

  lemma SnocDistinct<T>(s: seq<T>, x: T)
    requires Distinct(s) && x !in s
    ensures Distinct(s + [x])
  {
  }
}
