// list.c: the circular doubly linked list with an end marker and a walking index.
module KernelList {
  import opened ListModel

  class ListItem {
    var value: nat                // xItemValue
    var next: ListItem?           // pxNext
    var prev: ListItem?           // pxPrevious
    var container: KernelList?    // pxContainer

    // vListInitialiseItem
    constructor (v: nat)
      ensures value == v && container == null
    {
      value := v;
      next, prev, container := null, null, null;
    }
  }

  ghost predicate Links(c: seq<ListItem>)
    reads c`next, c`prev
  {
    && (forall i {:trigger c[i].next} :: 0 <= i < |c| - 1 ==> c[i].next == c[i + 1])
    && (forall i {:trigger c[i].prev} :: 0 < i < |c| ==> c[i].prev == c[i - 1])
  }

  ghost function KeysOf(items: seq<ListItem>): seq<nat>
    reads items
  {
    seq(|items|, i requires 0 <= i < |items| reads items => items[i].value)
  }

  lemma KeysInsert(items: seq<ListItem>, keys: seq<nat>, k: nat, x: ListItem)
    requires keys == KeysOf(items) && k <= |items|
    ensures KeysOf(InsertAt(items, k, x)) == InsertAt(keys, k, x.value)
  {
    hide InsertAt;
    var l, r := KeysOf(InsertAt(items, k, x)), InsertAt(keys, k, x.value);
    forall i | 0 <= i < |r| ensures l[i] == r[i] {
      if i > k {
        assert r[i - 1 + 1] == keys[i - 1];
        assert InsertAt(items, k, x)[i - 1 + 1] == items[i - 1];
      }
    }
  }

  // Items occur once in a chain, the end marker at both ends only.
  ghost predicate Simple(c: seq<ListItem>) {
    && |c| >= 2
    && (forall i, j :: 0 <= i < j < |c| - 1 ==> c[i] != c[j])
    && (forall i, j :: 1 <= i < j < |c| ==> c[i] != c[j])
  }

  lemma SimpleInsert(c: seq<ListItem>, p: nat, x: ListItem)
    requires Simple(c) && 1 <= p < |c| && x !in c
    ensures Simple(InsertAt(c, p, x))
  {
    var d := InsertAt(c, p, x);
    forall i, j | 0 <= i < j < |d| && !(i == 0 && j == |d| - 1) ensures d[i] != d[j] {
      assert d[i] == if i < p then c[i] else if i == p then x else c[i - 1];
      assert d[j] == if j < p then c[j] else if j == p then x else c[j - 1];
    }
  }

  lemma ChainInsert(e: ListItem, items: seq<ListItem>, p: nat, x: ListItem)
    requires 1 <= p <= |items| + 1
    ensures [e] + InsertAt(items, p - 1, x) + [e] == InsertAt([e] + items + [e], p, x)
  {
    var c := [e] + items + [e];
    var l, r := [e] + InsertAt(items, p - 1, x) + [e], InsertAt(c, p, x);
    forall i | 0 <= i < |l| ensures l[i] == r[i] {
      if p < i {
        assert r[i - 1 + 1] == c[i - 1];
        assert i <= |items| + 1 ==> InsertAt(items, p - 1, x)[i - 2 + 1] == items[i - 2];
      }
    }
  }

  // The four pointer writes around x link it in before c[p].
  lemma LinkedIn(c: seq<ListItem>, p: nat, x: ListItem)
    requires 1 <= p < |c|
    requires x.next == c[p] && x.prev == c[p - 1] && c[p - 1].next == x && c[p].prev == x
    requires forall i :: 0 <= i < |c| - 1 && i != p - 1 ==> c[i].next == c[i + 1]
    requires forall i :: 0 <= i < |c| - 1 && i != p - 1 ==> c[i + 1].prev == c[i]
    ensures Links(InsertAt(c, p, x))
  {
    var d := InsertAt(c, p, x);
    forall i | 0 <= i < |d| - 1
      ensures d[i].next == d[i + 1] && d[i + 1].prev == d[i]
    {
      if i < p - 1 {
        assert d[i] == c[i] && d[i + 1] == c[i + 1];
      } else if i > p {
        assert d[i] == c[i - 1] && d[i + 1] == c[i];
      }
    }
  }

  // Joining the two neighbours of c[p] unlinks it.
  lemma LinkedOut(c: seq<ListItem>, p: nat)
    requires 1 <= p < |c| - 1
    requires c[p - 1].next == c[p + 1] && c[p + 1].prev == c[p - 1]
    requires forall i :: 0 <= i < |c| - 1 && i != p - 1 && i != p ==> c[i].next == c[i + 1]
    requires forall i :: 0 <= i < |c| - 1 && i != p - 1 && i != p ==> c[i + 1].prev == c[i]
    ensures Links(c[..p] + c[p + 1..])
  {
    var d := c[..p] + c[p + 1..];
    forall i | 0 <= i < |d| - 1
      ensures d[i].next == d[i + 1] && d[i + 1].prev == d[i]
    {
      if i < p - 1 {
        assert d[i] == c[i] && d[i + 1] == c[i + 1];
      } else if i >= p {
        assert d[i] == c[i + 1] && d[i + 1] == c[i + 2];
      }
    }
  }

  lemma SimpleRemove(c: seq<ListItem>, p: nat)
    requires Simple(c) && 1 <= p < |c| - 1
    ensures Simple(c[..p] + c[p + 1..])
    ensures c[p] !in c[..p] + c[p + 1..]
  {
  }

  lemma ChainRemove(e: ListItem, items: seq<ListItem>, p: nat)
    requires 1 <= p <= |items|
    ensures [e] + (items[..p - 1] + items[p..]) + [e]
            == ([e] + items + [e])[..p] + ([e] + items + [e])[p + 1..]
  {
  }

  lemma {:induction false} ScanPointIs(keys: seq<nat>, v: nat, k: nat)
    requires k <= |keys| && (forall i :: 0 <= i < k ==> keys[i] <= v)
    requires k < |keys| ==> keys[k] > v
    ensures ScanPoint(keys, v) == k
  {
    var s := ScanPoint(keys, v);
    assert !(s < k) && !(k < s);
  }

  lemma ChainWith(e: ListItem, items: seq<ListItem>, p: nat, x: ListItem, at: nat)
      returns (more: seq<ListItem>, d: seq<ListItem>)
    requires 1 <= p <= |items| + 1 && Simple([e] + items + [e]) && x !in [e] + items + [e] && at <= |items|
    ensures more == InsertAt(items, p - 1, x) && |more| == |items| + 1
    ensures forall y <- more :: y == x || y in items
    ensures d == [e] + more + [e] == InsertAt([e] + items + [e], p, x) && Simple(d)
    ensures d[if at < p then at else at + 1] == ([e] + items + [e])[at]
  {
    more := InsertAt(items, p - 1, x);
    d := [e] + more + [e];
    ChainInsert(e, items, p, x);
    SimpleInsert([e] + items + [e], p, x);
    InsertAtContents(items, p - 1, x);
  }

  // Put x in between `left` and the node after it.
  method Splice(ghost c: seq<ListItem>, ghost d: seq<ListItem>, ghost p: nat, left: ListItem, x: ListItem)
    requires Simple(c) && Links(c) && 1 <= p < |c| && left == c[p - 1] && x !in c
    requires d == InsertAt(c, p, x)
    modifies c`next, c`prev, x`next, x`prev
    ensures Links(d)
  {
    assert c[p - 1].next == c[p];
    var right := left.next;
    x.next := right;
    right.prev := x;
    x.prev := left;
    left.next := x;
    LinkedIn(c, p, x);
  }

  lemma OthersStay(e: ListItem, items: seq<ListItem>, x: ListItem)
    requires Simple([e] + items + [e])
    ensures forall y <- RemoveOne(items, x) :: y in items && y != x
  {
    DistinctItems(e, items);
    RemoveOneContents(items, x);
    DistinctRemoveOne(items, x);
  }

  lemma DistinctItems(e: ListItem, items: seq<ListItem>)
    requires Simple([e] + items + [e])
    ensures Distinct(items)
  {
    var c := [e] + items + [e];
    forall i, j | 0 <= i < j < |items| ensures items[i] != items[j] {
      assert items[i] == c[i + 1] && items[j] == c[j + 1];
    }
  }

  lemma ChainWithout(e: ListItem, items: seq<ListItem>, x: ListItem, at: nat) returns (d: seq<ListItem>)
    requires x in items && Simple([e] + items + [e]) && at <= |items|
    ensures var c, p := [e] + items + [e], IndexOf(items, x) + 1;
            d == [e] + RemoveOne(items, x) + [e] == c[..p] + c[p + 1..] && c[p] == x
    ensures Simple(d) && |d| == |items| + 1
    ensures var c, i := [e] + items + [e], IndexOf(items, x);
            d[if i < at then at - 1 else at] == if c[at] == x then c[i] else c[at]
  {
    var c, p := [e] + items + [e], IndexOf(items, x) + 1;
    d := [e] + RemoveOne(items, x) + [e];
    RemoveOneIs(items, x);
    ChainRemove(e, items, p);
    SimpleRemove(c, p);
  }

  // Make the neighbours of x point at each other.
  method Unlink(ghost c: seq<ListItem>, ghost d: seq<ListItem>, ghost p: nat, x: ListItem)
    requires Simple(c) && Links(c) && 1 <= p < |c| - 1 && x == c[p]
    requires d == c[..p] + c[p + 1..]
    modifies c`next, c`prev
    ensures Links(d)
    ensures x.next == old(x.next) && x.prev == old(x.prev) == c[p - 1]
  {
    assert c[p - 1].next == c[p];
    assert c[p].next == c[p + 1] && c[p].prev == c[p - 1];
    x.next.prev := x.prev;
    x.prev.next := x.next;
    LinkedOut(c, p);
  }

  class KernelList {
    var count: nat                // uxNumberOfItems
    var index: ListItem           // pxIndex
    const end: ListItem           // xListEnd
    ghost var items: seq<ListItem>
    ghost var chain: seq<ListItem>   // from the end marker round to the end marker again
    ghost var at: nat

    ghost predicate Shape()
      reads this`items, this`chain, this`at, this`index, chain`next, chain`prev
    {
      && chain == [end] + items + [end] && Simple(chain) && Links(chain)
      && at <= |items| && index == chain[at]
    }

    ghost predicate Valid()
      reads this, end, items, chain`next, chain`prev
    {
      && Shape() && count == |items|
      && end.value == MAX_DELAY && end.container == null
      && forall x <- items :: x.container == this && x.value <= MAX_DELAY
    }

    // The abstract list this object stands for.
    ghost function View(): Ring<ListItem>
      reads this
    {
      Ring(items, at)
    }

    ghost function Keys(): seq<nat>
      reads this, items
    {
      KeysOf(items)
    }

    // vListInitialise
    constructor ()
      ensures Valid() && fresh(end) && View() == Ring([], 0)
    {
      var marker := new ListItem(MAX_DELAY);
      end := marker;
      index := marker;
      count, items, chain, at := 0, [], [marker, marker], 0;
      new;
      end.next, end.prev := end, end;
    }

    // The pointer writes vListInsertEnd and vListInsert share: x goes in between `left` and
    // the node after it, which is node p of the chain.
    method LinkIn(ghost p: nat, left: ListItem, x: ListItem)
      requires Shape() && 1 <= p <= |items| + 1 && left == chain[p - 1] && x !in chain
      modifies this`items, this`chain, this`at, chain`next, chain`prev, x`next, x`prev
      ensures Shape()
      ensures items == InsertAt(old(items), p - 1, x) && |items| == old(|items|) + 1
      ensures forall y <- items :: y == x || y in old(items)
      ensures at == if old(at) < p then old(at) else old(at) + 1
    {
      hide Simple;
      hide Links;
      hide InsertAt;
      ghost var more, d := ChainWith(end, items, p, x, at);
      Splice(chain, d, p, left, x);
      items, chain, at := more, d, if at < p then at else at + 1;
    }

    // Link x in and take it into the list's books.
    method Admit(ghost p: nat, left: ListItem, x: ListItem)
      requires Valid() && 1 <= p <= |items| + 1 && left == chain[p - 1]
      requires x.container == null && x != end && x.value <= MAX_DELAY
      modifies this`count, this`items, this`chain, this`at, chain`next, chain`prev
      modifies x`next, x`prev, x`container
      ensures Valid()
      ensures items == InsertAt(old(items), p - 1, x)
      ensures at == if old(at) < p then old(at) else old(at) + 1
    {
      assert forall y <- items :: y in chain && y != x;
      LinkIn(p, left, x);
      x.container := this;
      count := count + 1;
      assert Shape();
    }

    // vListInsertEnd
    method InsertEnd(x: ListItem)
      requires Valid() && x.container == null && x != end && x.value <= MAX_DELAY
      modifies this`count, this`items, this`chain, this`at, end`next, end`prev
      modifies items`next, items`prev, x`next, x`prev, x`container
      ensures Valid() && View() == old(View()).InsertEnd(x)
    {
      ghost var p := if at == 0 then |items| + 1 else at;
      assert chain[p].prev == chain[p - 1];
      Admit(p, index.prev, x);
    }

    // The scan of vListInsert.  It ends because no key below the maximum reaches past the end
    // marker, and the maximum itself is filed without a scan.
    method Scan(v: nat) returns (node: ListItem, ghost k: nat)
      requires Valid() && v <= MAX_DELAY
      ensures k == ScanPoint(Keys(), v) && node == chain[k]
    {
      node, k := end, 0;
      if v == MAX_DELAY {
        k := |items|;
        assert chain[k + 1].prev == chain[k];
        node := end.prev;
      } else {
        assert chain[0].next == chain[1];
        while node.next.value <= v
          invariant k <= |items| && node == chain[k] && node.next == chain[k + 1]
          invariant forall i :: 0 <= i < k ==> items[i].value <= v
          decreases |items| - k
        {
          assert chain[k + 1] == if k < |items| then items[k] else end;
          node, k := node.next, k + 1;
          assert chain[k].next == chain[k + 1];
        }
      }
      ScanPointIs(Keys(), v, k);
    }

    // vListInsert
    method Insert(x: ListItem)
      requires Valid() && x.container == null && x != end && x.value <= MAX_DELAY
      modifies this`count, this`items, this`chain, this`at, end`next, end`prev
      modifies items`next, items`prev, x`next, x`prev, x`container
      ensures Valid()
      ensures items == InsertAt(old(items), ScanPoint(old(Keys()), old(x.value)), x)
      ensures at == if old(at) <= ScanPoint(old(Keys()), old(x.value)) then old(at) else old(at) + 1
      ensures Sorted(old(Keys())) ==> Sorted(Keys())
    {
      hide Simple;
      hide Links;
      hide ScanPoint;
      ghost var keys, was := Keys(), items;
      var node, k := Scan(x.value);
      Admit(k + 1, node, x);
      KeysInsert(was, keys, k, x);
      if Sorted(keys) {
        SortedInsertion(keys, x.value);
      }
    }

    // uxListRemove
    method Remove(x: ListItem) returns (left: nat)
      requires Valid() && x in items
      modifies this`count, this`index, this`items, this`chain, this`at, end`next, end`prev
      modifies items`next, items`prev, x`container
      ensures Valid() && View() == old(View()).Remove(x)
      ensures x.container == null && left == |items|
    {
      LinkOut(IndexOf(items, x), x);
      x.container := null;
      count := count - 1;
      left := count;
    }

    // Close the gap round x, leaving the index on a linked node.
    method LinkOut(ghost i: nat, x: ListItem)
      requires Shape() && x in items && i == IndexOf(items, x)
      modifies this`index, this`items, this`chain, this`at, chain`next, chain`prev
      ensures Shape()
      ensures items == RemoveOne(old(items), x) && forall y <- items :: y in old(items) && y != x
      ensures at == if i < old(at) then old(at) - 1 else old(at)
    {
      ghost var rest, a := RemoveOne(items, x), if i < at then at - 1 else at;
      ghost var d := ChainWithout(end, items, x, at);
      OthersStay(end, items, x);
      Unlink(chain, d, i + 1, x);
      if index == x {
        index := x.prev;
      }
      items, chain, at := rest, d, a;
    }

    // listGET_OWNER_OF_NEXT_ENTRY
    method NextEntry() returns (owner: ListItem)
      requires Valid() && count > 0
      modifies this`index, this`at
      ensures Valid() && View() == old(View()).Advance() && owner == View().Owner()
    {
      ghost var c := chain;
      assert c[at].next == c[at + 1] && c[0].next == c[1];
      index := index.next;
      if index == end {
        index := end.next;
      }
      at := View().Advance().at;
      owner := index;
    }
  }
}
