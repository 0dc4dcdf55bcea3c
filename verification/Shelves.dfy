// A family of kernel lists together with the container pointers of the items: every task has
// one item that can be in at most one of the lists.  The scheduler has two such families, one
// for the state list items and one for the event list items.
module Shelves {

  import opened ListModel

  type Task = nat

  datatype Shelf = Shelf(lists: seq<Ring<Task>>, home: map<Task, nat>) {

    ghost predicate Valid() {
      && (forall i {:trigger lists[i]} :: 0 <= i < |lists| ==> lists[i].Valid() && Distinct(lists[i].items))
      && (forall i, t {:trigger t in lists[i].items} :: 0 <= i < |lists| ==> (t in lists[i].items <==> t in home && home[t] == i))
      && (forall t <- home :: home[t] < |lists|)
    }

    predicate Has(i: nat) { i < |lists| && lists[i].Valid() }

    predicate Holds(t: Task) {
      t in home && Has(home[t])
    }

    // uxListRemove
    function Take(t: Task): (s: Shelf)
      requires Holds(t)
      ensures |s.lists| == |lists| && s.home == home - {t}
    {
      Shelf(lists[home[t] := lists[home[t]].Remove(t)], home - {t})
    }

    // vListInsertEnd
    function PutEnd(i: nat, t: Task): (s: Shelf)
      requires Has(i)
      ensures |s.lists| == |lists| && s.home == home[t := i]
    {
      Shelf(lists[i := lists[i].InsertEnd(t)], home[t := i])
    }

    // vListInsert, at the place the scan has found
    function PutAt(i: nat, at: nat, t: Task): (s: Shelf)
      requires Has(i) && at <= |lists[i].items|
      ensures |s.lists| == |lists| && s.home == home[t := i]
    {
      var r := lists[i];
      Shelf(lists[i := Ring(InsertAt(r.items, at, t), if at < r.at then r.at + 1 else r.at)], home[t := i])
    }

    function Items(i: nat): seq<Task>
      requires i < |lists|
    {
      lists[i].items
    }
  }

  lemma TakeValid(s: Shelf, t: Task)
    requires s.Valid() && t in s.home
    ensures s.Take(t).Valid()
    ensures forall i :: 0 <= i < |s.lists| ==>
              s.Take(t).Items(i) == if i == s.home[t] then RemoveOne(s.Items(i), t) else s.Items(i)
  {
    RemoveOneContents(s.Items(s.home[t]), t);
    DistinctRemoveOne(s.Items(s.home[t]), t);
  }

  lemma PutAtValid(s: Shelf, i: nat, at: nat, t: Task)
    requires s.Valid() && i < |s.lists| && at <= |s.Items(i)| && t !in s.home
    ensures s.PutAt(i, at, t).Valid()
  {
    InsertAtContents(s.Items(i), at, t);
    DistinctInsertAt(s.Items(i), at, t);
  }

  lemma PutEndValid(s: Shelf, i: nat, t: Task)
    requires s.Valid() && i < |s.lists| && t !in s.home
    ensures s.PutEnd(i, t).Valid()
    ensures s.PutEnd(i, t).Items(i) == InsertAt(s.Items(i), if s.lists[i].at == 0 then |s.Items(i)| else s.lists[i].at - 1, t)
  {
    var at := if s.lists[i].at == 0 then |s.Items(i)| else s.lists[i].at - 1;
    assert s.PutEnd(i, t) == s.PutAt(i, at, t);
    PutAtValid(s, i, at, t);
  }

  // The moves the scheduler makes: out of the list the task is in, into list i.
  function MoveEnd(s: Shelf, t: Task, i: nat): (r: Shelf)
    requires s.Valid() && t in s.home && i < |s.lists|
    ensures r.Valid() && r.home == s.home[t := i] && |r.lists| == |s.lists|
    ensures i != s.home[t] ==> |r.Items(i)| == |s.Items(i)| + 1
    ensures forall j :: 0 <= j < |s.lists| && j != i ==>
              r.Items(j) == if j == s.home[t] then RemoveOne(s.Items(j), t) else s.Items(j)
  {
    TakeValid(s, t);
    PutEndValid(s.Take(t), i, t);
    s.Take(t).PutEnd(i, t)
  }

  function MoveAt(s: Shelf, t: Task, i: nat, at: nat): (r: Shelf)
    requires s.Valid() && t in s.home && i < |s.lists|
    requires at <= |s.Items(i)| && i != s.home[t]
    ensures r.Valid() && r.home == s.home[t := i] && |r.lists| == |s.lists|
    ensures r.Items(i) == InsertAt(s.Items(i), at, t)
    ensures forall j :: 0 <= j < |s.lists| && j != i ==>
              r.Items(j) == if j == s.home[t] then RemoveOne(s.Items(j), t) else s.Items(j)
  {
    TakeValid(s, t);
    PutAtValid(s.Take(t), i, at, t);
    s.Take(t).PutAt(i, at, t)
  }

  function Total(lists: seq<Ring<Task>>): nat {
    if lists == [] then 0 else Total(lists[..|lists| - 1]) + |lists[|lists| - 1].items|
  }

  lemma {:induction false} DistinctCount(s: seq<Task>, d: set<Task>)
    requires Distinct(s) && forall t :: t in s <==> t in d
    ensures |s| == |d|
    decreases |s|
  {
    if s != [] {
      var r := s[..|s| - 1];
      assert s == r + [s[|s| - 1]];
      DistinctCount(r, d - {s[|s| - 1]});
    } else {
      assert d == {};
    }
  }

  function Below(home: map<Task, nat>, n: nat): set<Task> {
    set t | t in home && home[t] < n
  }

  lemma BelowNext(home: map<Task, nat>, n: nat)
    ensures var here := set t | t in home && home[t] == n;
            Below(home, n + 1) == Below(home, n) + here && |Below(home, n + 1)| == |Below(home, n)| + |here|
  {
    var here := set t | t in home && home[t] == n;
    assert Below(home, n + 1) == Below(home, n) + here;
    assert Below(home, n) !! here;
  }

  lemma {:induction false} TotalUpTo(s: Shelf, n: nat)
    requires s.Valid() && n <= |s.lists|
    ensures Total(s.lists[..n]) == |Below(s.home, n)|
    decreases n
  {
    if n > 0 {
      TotalUpTo(s, n - 1);
      assert s.lists[..n][..n - 1] == s.lists[..n - 1];
      BelowNext(s.home, n - 1);
      DistinctCount(s.Items(n - 1), set t | t in s.home && s.home[t] == n - 1);
    } else {
      assert Below(s.home, 0) == {};
    }
  }

  // The lists of a family hold every item that is in one of them exactly once.
  lemma TotalIsHome(s: Shelf)
    requires s.Valid()
    ensures Total(s.lists) == |s.home|
  {
    TotalUpTo(s, |s.lists|);
    assert s.lists[..|s.lists|] == s.lists;
    assert Below(s.home, |s.lists|) == s.home.Keys;
  }
}
