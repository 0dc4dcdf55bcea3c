// The value a kernel list stands for: its items from the head on, and how far the walking
// index has come.  `at == 0` means the index rests on the end marker, `at == k + 1` that it
// rests on items[k].  The pointer code of KernelList is proved to act on this value, and the
// scheduler model uses it for its ready lists.
module ListModel {

  // portMAX_DELAY: the largest tick value, which is also the key of every end marker.
  const MAX_DELAY := 0xFFFF_FFFF

  predicate Distinct<T(==)>(s: seq<T>) {
    forall i, j :: 0 <= i < j < |s| ==> s[i] != s[j]
  }

  function IndexOf<T(==)>(s: seq<T>, x: T): (i: nat)
    requires x in s
    ensures i < |s| && s[i] == x && forall j :: 0 <= j < i ==> s[j] != x
  {
    HasFirst(s, x);
    var i: nat :| i < |s| && s[i] == x && forall j :: 0 <= j < i ==> s[j] != x;
    i
  }

  lemma {:induction false} HasFirst<T>(s: seq<T>, x: T)
    requires x in s
    ensures exists i: nat :: i < |s| && s[i] == x && forall j :: 0 <= j < i ==> s[j] != x
  {
    if s[0] != x {
      HasFirst(s[1..], x);
      var i: nat :| i < |s[1..]| && s[1..][i] == x && forall j :: 0 <= j < i ==> s[1..][j] != x;
      assert forall j :: 0 < j < i + 1 ==> s[j] == s[1..][j - 1];
      assert s[i + 1] == x;
    } else {
      assert s[0] == x;
    }
  }

  // s without the first occurrence of x.
  function RemoveOne<T(==)>(s: seq<T>, x: T): (r: seq<T>)
    ensures |r| == if x in s then |s| - 1 else |s|
    ensures x !in s ==> r == s
  {
    if s == [] then [] else if s[0] == x then s[1..] else [s[0]] + RemoveOne(s[1..], x)
  }

  lemma {:induction false} RemoveOneContents<T>(s: seq<T>, x: T)
    ensures multiset(RemoveOne(s, x)) == multiset(s) - multiset{x}
    ensures forall y :: y in RemoveOne(s, x) ==> y in s
    ensures forall y :: y in s && y != x ==> y in RemoveOne(s, x)
  {
    if s != [] {
      var rest := s[1..];
      assert s == [s[0]] + rest;
      if s[0] != x {
        RemoveOneContents(rest, x);
        assert RemoveOne(s, x) == [s[0]] + RemoveOne(rest, x);
      }
    }
  }

  lemma {:induction false} RemoveOneIs<T>(s: seq<T>, x: T)
    requires x in s
    ensures var i := IndexOf(s, x); RemoveOne(s, x) == s[..i] + s[i + 1..]
  {
    var i := IndexOf(s, x);
    if s[0] == x {
      assert i == 0;
    } else {
      RemoveOneIs(s[1..], x);
      var j := IndexOf(s[1..], x);
      assert s[j + 1] == s[1..][j];
      assert forall k :: 0 < k < j + 1 ==> s[k] == s[1..][k - 1];
      assert i == j + 1;
    }
  }

  lemma DistinctRemoveOne<T>(s: seq<T>, x: T)
    requires Distinct(s)
    ensures Distinct(RemoveOne(s, x))
    ensures x !in RemoveOne(s, x)
  {
    if x in s {
      RemoveOneIs(s, x);
    }
  }

  datatype Ring<T(==)> = Ring(items: seq<T>, at: nat) {

    predicate Valid() { at <= |items| }

    // The order in which the next |items| walks of the index return the items.
    function Order(): seq<T>
      requires Valid()
    {
      items[at..] + items[..at]
    }

    // vListInsertEnd: link the item in just before the index.
    function InsertEnd(x: T): (r: Ring<T>)
      requires Valid()
      ensures r.Valid()
      ensures multiset(r.items) == multiset(items) + multiset{x}
    {
      InsertAtContents(items, if at == 0 then |items| else at - 1, x);
      if at == 0 then Ring(InsertAt(items, |items|, x), 0)
      else Ring(InsertAt(items, at - 1, x), at + 1)
    }

    // uxListRemove: unlink the item; an index resting on it steps back.
    function Remove(x: T): (r: Ring<T>)
      requires Valid()
      ensures r.Valid()
      ensures r.items == RemoveOne(items, x)
    {
      if x !in items then this
      else
        RemoveOneContents(items, x);
        Ring(RemoveOne(items, x), if IndexOf(items, x) < at then at - 1 else at)
    }

    // listGET_OWNER_OF_NEXT_ENTRY: advance the index, skipping the end marker.
    function Advance(): (r: Ring<T>)
      requires Valid() && items != []
      ensures r.Valid() && r.items == items && r.at > 0
    {
      Ring(items, if at < |items| then at + 1 else 1)
    }

    function Owner(): T
      requires Valid() && at > 0
    {
      items[at - 1]
    }
  }

  function AdvanceBy<T(==)>(r: Ring<T>, n: nat): (q: Ring<T>)
    requires r.Valid() && r.items != []
    ensures q.Valid() && q.items == r.items && (n > 0 ==> q.at > 0)
    decreases n
  {
    if n == 0 then r else AdvanceBy(r, n - 1).Advance()
  }

  // Round robin: the k-th walk from any index position returns the k-th item of the visiting
  // order, and |items| walks bring the index back to an equivalent position.
  lemma {:induction false} RoundRobin<T>(r: Ring<T>, k: nat)
    requires r.Valid() && 0 < k <= |r.items|
    ensures AdvanceBy(r, k).Owner() == r.Order()[k - 1]
    ensures AdvanceBy(r, k).at == if r.at + k <= |r.items| then r.at + k else r.at + k - |r.items|
  {
    if k > 1 {
      RoundRobin(r, k - 1);
    }
  }

  lemma DistinctOrder<T>(r: Ring<T>)
    requires r.Valid() && Distinct(r.items)
    ensures Distinct(r.Order())
  {
    var o, n := r.Order(), |r.items|;
    forall i, j | 0 <= i < j < n ensures o[i] != o[j] {
      var a := if i < n - r.at then r.at + i else r.at + i - n;
      var b := if j < n - r.at then r.at + j else r.at + j - n;
      assert o[i] == r.items[a] && o[j] == r.items[b] && a != b;
    }
  }

  lemma OrderPermutes<T>(r: Ring<T>)
    requires r.Valid()
    ensures multiset(r.Order()) == multiset(r.items)
    ensures forall x :: x in r.Order() <==> x in r.items
  {
    assert r.items == r.items[..r.at] + r.items[r.at..];
    assert forall x :: x in r.Order() <==> x in multiset(r.Order());
  }

  // So one full round visits every item, exactly once when the items are distinct, ...
  lemma RoundVisitsEachOnce<T>(r: Ring<T>, x: T)
    requires r.Valid() && Distinct(r.items) && x in r.items
    ensures exists k :: 0 < k <= |r.items| && AdvanceBy(r, k).Owner() == x
    ensures forall k, l :: 0 < k < l <= |r.items| ==> AdvanceBy(r, k).Owner() != AdvanceBy(r, l).Owner()
  {
    OrderPermutes(r);
    DistinctOrder(r);
    var j := IndexOf(r.Order(), x);
    RoundRobin(r, j + 1);
    forall k, l | 0 < k < l <= |r.items|
      ensures AdvanceBy(r, k).Owner() != AdvanceBy(r, l).Owner()
    {
      RoundRobin(r, k);
      RoundRobin(r, l);
    }
  }

  // ... and the next round repeats the same order.
  lemma RoundRepeats<T>(r: Ring<T>)
    requires r.Valid() && r.items != []
    ensures AdvanceBy(r, |r.items|).Order() == r.Order()
  {
    RoundRobin(r, |r.items|);
  }

  // Where an item added by vListInsertEnd comes in the visiting order.  It is visited last
  // exactly when the index rests on the end marker; otherwise the item the index rests on,
  // which was returned most recently, still comes after it.
  lemma InsertEndOrder<T>(r: Ring<T>, x: T)
    requires r.Valid() && x !in r.items
    ensures var o, n := r.Order(), |r.items|;
            r.InsertEnd(x).Order() ==
            if r.at == 0 then o + [x] else o[..n - 1] + [x] + [o[n - 1]]
    ensures r.InsertEnd(x).Order()[|r.items|] == x <==> r.at == 0
  {
    hide InsertAt;
    var s, n, a, q := r.items, |r.items|, r.at, r.InsertEnd(x);
    if a == 0 {
      InsertAtIs(s, n, x);
      assert q.items == s + [x];
      assert r.Order() == s && q.Order() == q.items;
    } else {
      InsertBehind(s, a, x);
      assert q.items == InsertAt(s, a - 1, x) && q.at == a + 1;
      assert r.Order()[n - 1] == s[a - 1] && s[a - 1] in s;
      assert r.Order()[..n - 1] == s[a..] + s[..a - 1];
    }
  }

  lemma InsertBehind<T>(s: seq<T>, a: nat, x: T)
    requires 0 < a <= |s|
    ensures var t := InsertAt(s, a - 1, x);
            t[a + 1..] + t[..a + 1] == s[a..] + s[..a - 1] + [x] + [s[a - 1]]
  {
    var t := InsertAt(s, a - 1, x);
    assert t[a + 1..] == s[a..] by {
      forall i | 0 <= i < |s| - a ensures t[a + 1..][i] == s[a..][i] {
        assert t[(a + i) + 1] == s[a + i];
      }
    }
    assert t[..a + 1] == s[..a - 1] + [x] + [s[a - 1]] by {
      assert t[(a - 1) + 1] == s[a - 1];
    }
  }

  // The place of items[i] in the visiting order.
  function Place<T(==)>(r: Ring<T>, i: nat): nat
    requires r.Valid() && i < |r.items|
  {
    if i < r.at then |r.items| - r.at + i else i - r.at
  }

  // Removing an item takes it out of the visiting order and leaves the order of the others
  // as it was.
  lemma RemoveOrder<T>(r: Ring<T>, x: T)
    requires r.Valid() && x in r.items
    ensures var o, j := r.Order(), Place(r, IndexOf(r.items, x));
            o[j] == x && r.Remove(x).Order() == o[..j] + o[j + 1..]
  {
    hide RemoveOne;
    hide Place;
    hide Ring.Order;
    RemoveOneIs(r.items, x);
    RemoveAtPlace(r, IndexOf(r.items, x));
  }

  lemma RemoveAtPlace<T>(r: Ring<T>, i: nat)
    requires r.Valid() && i < |r.items|
    ensures r.Order()[Place(r, i)] == r.items[i]
    ensures Ring(r.items[..i] + r.items[i + 1..], if i < r.at then r.at - 1 else r.at).Order()
            == r.Order()[..Place(r, i)] + r.Order()[Place(r, i) + 1..]
  {
    if i < r.at {
      RemoveBefore(r.items, r.at, i);
    } else {
      RemoveBehind(r.items, r.at, i);
    }
  }

  lemma RemoveBefore<T>(s: seq<T>, a: nat, i: nat)
    requires i < a <= |s|
    ensures var t, o, p := s[..i] + s[i + 1..], s[a..] + s[..a], |s| - a + i;
            t[a - 1..] + t[..a - 1] == o[..p] + o[p + 1..]
  {
    var t, o, p := s[..i] + s[i + 1..], s[a..] + s[..a], |s| - a + i;
    assert o[..p] == s[a..] + s[..i] && o[p + 1..] == s[i + 1..a];
    assert t[a - 1..] == s[a..] && t[..a - 1] == s[..i] + s[i + 1..a];
  }

  lemma RemoveBehind<T>(s: seq<T>, a: nat, i: nat)
    requires a <= i < |s|
    ensures var t, o, p := s[..i] + s[i + 1..], s[a..] + s[..a], i - a;
            t[a..] + t[..a] == o[..p] + o[p + 1..]
  {
    var t, o, p := s[..i] + s[i + 1..], s[a..] + s[..a], i - a;
    assert o[..p] == s[a..i] && o[p + 1..] == s[i + 1..] + s[..a];
    assert t[a..] == s[a..i] + s[i + 1..] && t[..a] == s[..a];
  }

  // ---- sorted insertion (vListInsert)

  predicate Sorted(keys: seq<nat>) {
    forall i, j :: 0 <= i <= j < |keys| ==> keys[i] <= keys[j]
  }

  // The number of leading keys at or below v: where the scan of vListInsert stops.
  function ScanPoint(keys: seq<nat>, v: nat): (k: nat)
    ensures k <= |keys|
    ensures forall i :: 0 <= i < k ==> keys[i] <= v
    ensures k < |keys| ==> keys[k] > v
  {
    if keys == [] || keys[0] > v then 0 else 1 + ScanPoint(keys[1..], v)
  }

  function InsertAt<T>(s: seq<T>, k: nat, x: T): (r: seq<T>)
    requires k <= |s|
    ensures |r| == |s| + 1 && r[k] == x
    ensures forall i :: 0 <= i < k ==> r[i] == s[i]
    ensures forall i :: k <= i < |s| ==> r[i + 1] == s[i]
  {
    if k == 0 then [x] + s else [s[0]] + InsertAt(s[1..], k - 1, x)
  }

  lemma {:induction false} InsertAtIs<T>(s: seq<T>, k: nat, x: T)
    requires k <= |s|
    ensures InsertAt(s, k, x) == s[..k] + [x] + s[k..]
  {
    if k > 0 {
      InsertAtIs(s[1..], k - 1, x);
      assert s[1..][..k - 1] == s[1..k] && s[1..][k - 1..] == s[k..];
      assert s[..k] == [s[0]] + s[1..k];
    }
  }

  lemma InsertAtContents<T>(s: seq<T>, k: nat, x: T)
    requires k <= |s|
    ensures multiset(InsertAt(s, k, x)) == multiset(s) + multiset{x}
    ensures x in InsertAt(s, k, x)
    ensures forall y <- InsertAt(s, k, x) :: y == x || y in s
    ensures forall y <- s :: y in InsertAt(s, k, x)
  {
    InsertAtIs(s, k, x);
    assert s == s[..k] + s[k..];
  }

  lemma DistinctInsertAt<T>(s: seq<T>, k: nat, x: T)
    requires Distinct(s) && x !in s && k <= |s|
    ensures Distinct(InsertAt(s, k, x))
  {
    var r := InsertAt(s, k, x);
    forall i, j | 0 <= i < j < |r| ensures r[i] != r[j] {
      assert j > k ==> r[j - 1 + 1] == s[j - 1];
      assert i > k ==> r[i - 1 + 1] == s[i - 1];
    }
  }

  // On a sorted list the scan keeps the list sorted and puts the new key after every equal
  // one; this covers the largest key too, which can only go to the tail.
  lemma SortedInsertion(keys: seq<nat>, v: nat)
    requires Sorted(keys)
    ensures Sorted(InsertAt(keys, ScanPoint(keys, v), v))
    ensures forall i :: 0 <= i < |keys| ==> (keys[i] <= v <==> i < ScanPoint(keys, v))
    ensures (forall i :: 0 <= i < |keys| ==> keys[i] <= MAX_DELAY) && v == MAX_DELAY ==>
              ScanPoint(keys, v) == |keys|
  {
    var k := ScanPoint(keys, v);
    if k < |keys| {
      forall i | k <= i < |keys| ensures keys[i] > v {
        assert keys[k] <= keys[i];
      }
    }
  }
}
