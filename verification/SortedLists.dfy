// Lists that vListInsert keeps sorted by item value.
module SortedLists {

  import opened ListModel
  import opened Shelves
  import opened Ticks

  function Values(value: map<Task, Tick>, s: seq<Task>): (w: seq<nat>)
    requires forall t <- s :: t in value
    ensures |w| == |s|
  {
    seq(|s|, i requires 0 <= i < |s| => value[s[i]])
  }

  predicate SortedBy(value: map<Task, Tick>, s: seq<Task>)
    requires forall t <- s :: t in value
  {
    forall i, j :: 0 <= i <= j < |s| ==> value[s[i]] <= value[s[j]]
  }

  lemma SortedRemove(value: map<Task, Tick>, s: seq<Task>, t: Task)
    requires forall u <- s :: u in value
    requires SortedBy(value, s)
    ensures forall u <- RemoveOne(s, t) :: u in s
    ensures SortedBy(value, RemoveOne(s, t))
  {
    hide RemoveOne;
    if t in s {
      RemoveOneIs(s, t);
      var k, r := IndexOf(s, t), RemoveOne(s, t);
      assert forall i :: 0 <= i < |r| ==> r[i] == s[if i < k then i else i + 1];
    }
  }

  lemma SortedInsertTask(value: map<Task, Tick>, s: seq<Task>, keys: seq<nat>, t: Task, v: Tick)
    requires (forall u <- s :: u in value) && SortedBy(value, s) && t !in s
    requires |keys| == |s| && forall i :: 0 <= i < |s| ==> keys[i] == value[s[i]]
    ensures var r := InsertAt(s, ScanPoint(keys, v), t);
            && (forall u <- r :: u in value[t := v]) && SortedBy(value[t := v], r)
  {
    var at := ScanPoint(keys, v);
    var r, w, q := InsertAt(s, at, t), value[t := v], InsertAt<nat>(keys, at, v);
    assert Sorted(q) by {
      forall i, j | 0 <= i <= j < |keys| ensures keys[i] <= keys[j] {
        assert value[s[i]] <= value[s[j]];
      }
      SortedInsertion(keys, v);
    }
    forall i | 0 <= i < |r| ensures r[i] in w && w[r[i]] == q[i] {
      KeyAt(value, s, keys, at, t, v, i);
    }
  }

  lemma KeyAt(value: map<Task, Tick>, s: seq<Task>, keys: seq<nat>, at: nat, t: Task, v: Tick, i: nat)
    requires (forall u <- s :: u in value) && t !in s && at <= |s| && i <= |s|
    requires |keys| == |s| && forall i :: 0 <= i < |s| ==> keys[i] == value[s[i]]
    ensures var r, w, q := InsertAt(s, at, t), value[t := v], InsertAt<nat>(keys, at, v);
            r[i] in w && w[r[i]] == q[i]
  {
    var r, q := InsertAt(s, at, t), InsertAt<nat>(keys, at, v);
    if i < at {
      assert r[i] == s[i] && s[i] in s;
    } else if i > at {
      assert r[(i - 1) + 1] == s[i - 1] && q[(i - 1) + 1] == keys[i - 1] && s[i - 1] in s;
    }
  }

  lemma SortedElsewhere(value: map<Task, Tick>, s: seq<Task>, t: Task, v: Tick)
    requires (forall u <- s :: u in value) && SortedBy(value, s) && t !in s
    ensures SortedBy(value[t := v], s)
  {
  }

  // The scan of vListInsert.
  method Scan(keys: seq<nat>, v: nat) returns (at: nat)
    ensures at == ScanPoint(keys, v)
  {
    at := 0;
    while at < |keys| && keys[at] <= v
      invariant at <= |keys| && forall i :: 0 <= i < at ==> keys[i] <= v
    {
      at := at + 1;
    }
  }
}
