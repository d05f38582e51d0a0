/** BoundedQueue and BoundedPriorityQueue of core/utils/utils.go. */
module BoundedQueues {
  import opened Wrappers
  import opened NewestItems

  // ----- What a bounded queue has to hold -----

  /** All that was ever added, and the index after the latest item that was taken. */
  datatype History<T> = History(capacity: nat, added: seq<T>, low: nat) {
    /** The index of the oldest item that still counts: not before the latest one taken, nor beyond the newest
        `capacity`. */
    function Oldest(): int {
      Max(low, |added| - capacity)
    }

    predicate Valid() {
      low <= |added|
    }

    function Kept(): seq<T>
      requires Valid()
    {
      added[Oldest()..]
    }

    function Add(x: T): History<T> {
      this.(added := added + [x])
    }

    function Take(): History<T> {
      this.(low := Oldest() + 1)
    }
  }

  /** Appending and cutting the excess off the front keeps the newest items. */
  lemma KeptAfterAdd<T>(h: History<T>, x: T)
    requires h.Valid()
    ensures h.Add(x).Valid()
    ensures h.Add(x).Kept() == KeepNewest(h.Kept() + [x], h.capacity)
  {
    assert (h.added + [x])[h.Oldest()..] == h.Kept() + [x];
  }

  lemma KeptAfterTake<T>(h: History<T>)
    requires h.Valid() && h.Kept() != []
    ensures h.Take().Valid() && h.low <= h.Oldest() < h.Take().low
    ensures h.Kept() == [h.Kept()[0]] + h.Take().Kept()
  {
  }

  datatype Op<T> = Add(x: T) | Take

  /** A run on the slice alone: append and cut, or cut the front. */
  function Run<T>(ops: seq<Op<T>>, capacity: nat): seq<T> {
    if ops == [] then [] else
    var s := Run(ops[..|ops| - 1], capacity);
    match ops[|ops| - 1]
    case Add(x) => KeepNewest(s + [x], capacity)
    case Take => if s == [] then s else s[1..]
  }

  function HistoryOf<T>(ops: seq<Op<T>>, capacity: nat): History<T> {
    if ops == [] then History(capacity, [], 0) else
    var h := HistoryOf(ops[..|ops| - 1], capacity);
    match ops[|ops| - 1]
    case Add(x) => h.Add(x)
    case Take => if h.Valid() && h.Kept() != [] then h.Take() else h
  }

  /** After any run the slice is the newest `capacity` of all added items, less those up to the latest one taken. */
  lemma {:induction false} RunKeepsNewest<T>(ops: seq<Op<T>>, capacity: nat)
    ensures var h := HistoryOf(ops, capacity); h.Valid() && h.capacity == capacity && Run(ops, capacity) == h.Kept()
  {
    if ops == [] {
    } else {
      var before := ops[..|ops| - 1];
      RunKeepsNewest(before, capacity);
      var h := HistoryOf(before, capacity);
      match ops[|ops| - 1]
      case Add(x) => KeptAfterAdd(h, x);
      case Take => if h.Kept() != [] { KeptAfterTake(h); }
    }
  }

  // ----- Items that were pushed out -----

  /** The items added and not taken, in the order they were added. A take takes out the oldest one still in the
      slice. */
  function NotTaken<T>(ops: seq<Op<T>>, capacity: nat): seq<T> {
    if ops == [] then [] else
    var before := ops[..|ops| - 1];
    var left := NotTaken(before, capacity);
    match ops[|ops| - 1]
    case Add(x) => left + [x]
    case Take =>
      var at := |left| - |Run(before, capacity)|;
      if 0 <= at < |left| then left[..at] + left[at + 1..] else left
  }

  /** What was cut off the front, oldest first. */
  function Dropped<T>(ops: seq<Op<T>>, capacity: nat): seq<T> {
    if ops == [] then [] else
    var before := ops[..|ops| - 1];
    match ops[|ops| - 1]
    case Add(x) =>
      var all := Run(before, capacity) + [x];
      Dropped(before, capacity) + all[..|all| - |KeepNewest(all, capacity)|]
    case Take => Dropped(before, capacity)
  }

  /** The slice holds the items that were not taken, less those that were pushed out. */
  lemma {:induction false} NotTakenIs<T>(ops: seq<Op<T>>, capacity: nat)
    ensures NotTaken(ops, capacity) == Dropped(ops, capacity) + Run(ops, capacity)
  {
    if ops == [] {
    } else {
      var before := ops[..|ops| - 1];
      NotTakenIs(before, capacity);
      var dropped, s := Dropped(before, capacity), Run(before, capacity);
      match ops[|ops| - 1]
      case Add(x) => PushedIn(dropped, s, x, capacity);
      case Take => TakenOut(dropped, s);
    }
  }

  lemma PushedIn<T>(dropped: seq<T>, s: seq<T>, x: T, capacity: nat)
    ensures var all := s + [x];
      var kept := KeepNewest(all, capacity);
      (dropped + s) + [x] == (dropped + all[..|all| - |kept|]) + kept
  {
  }

  lemma TakenOut<T>(dropped: seq<T>, s: seq<T>)
    ensures var left, at := dropped + s, |dropped|;
      s != [] ==> left[..at] + left[at + 1..] == dropped + s[1..]
  {
  }

  lemma {:induction false} RunFits<T>(ops: seq<Op<T>>, capacity: nat)
    ensures |Run(ops, capacity)| <= capacity
  {
    if ops == [] {
    } else {
      RunFits(ops[..|ops| - 1], capacity);
    }
  }

  /** The slice is the newest `capacity` of all items not taken exactly if it is full, or nothing was ever pushed out:
      an item that was pushed out does not come back when room is made. */
  lemma NewestNotTakenIff<T>(ops: seq<Op<T>>, capacity: nat)
    ensures KeepNewest(NotTaken(ops, capacity), capacity) == Run(ops, capacity) <==>
            |Run(ops, capacity)| == capacity || Dropped(ops, capacity) == []
  {
    NotTakenIs(ops, capacity);
    RunFits(ops, capacity);
    KeepsAllIff(Dropped(ops, capacity), Run(ops, capacity), capacity);
  }

  lemma AfterAdd<T>(ops: seq<Op<T>>, x: T, capacity: nat, all: seq<T>)
    requires all == Run(ops, capacity) + [x]
    ensures Run(ops + [Add(x)], capacity) == KeepNewest(all, capacity)
    ensures Dropped(ops + [Add(x)], capacity)
         == Dropped(ops, capacity) + all[..|all| - |KeepNewest(all, capacity)|]
  {
    assert (ops + [Add(x)])[..|ops|] == ops;
  }

  lemma AfterTake<T>(ops: seq<Op<T>>, capacity: nat)
    requires Run(ops, capacity) != []
    ensures Run(ops + [Take], capacity) == Run(ops, capacity)[1..]
    ensures Dropped(ops + [Take], capacity) == Dropped(ops, capacity)
  {
    assert (ops + [Take])[..|ops|] == ops;
  }

  lemma FirstAdded(x: int)
    ensures Run([Add(x)], 2) == [x] && Dropped([Add(x)], 2) == []
  {
    AfterAdd([], x, 2, [x]);
    assert [] + [Add(x)] == [Add(x)];
  }

  lemma SecondAdded(x: int, y: int)
    ensures Run([Add(x)] + [Add(y)], 2) == [x, y] && Dropped([Add(x)] + [Add(y)], 2) == []
  {
    FirstAdded(x);
    AfterAdd([Add(x)], y, 2, [x, y]);
  }

  lemma ThirdAdded(x: int, y: int, z: int)
    ensures Run([Add(x)] + [Add(y)] + [Add(z)], 2) == [y, z] && Dropped([Add(x)] + [Add(y)] + [Add(z)], 2) == [x]
  {
    SecondAdded(x, y);
    AfterAdd([Add(x)] + [Add(y)], z, 2, [x, y, z]);
  }

  /** A full queue that an item was taken out of is not the newest of the items not taken. */
  lemma PushedOutStaysOut(x: int, y: int, z: int, three: seq<Op<int>>)
    requires three == [Add(x)] + [Add(y)] + [Add(z)]
    ensures Run(three + [Take], 2) == [z] && Dropped(three + [Take], 2) == [x]
    ensures KeepNewest(NotTaken(three + [Take], 2), 2) == [x, z]
  {
    ThirdAdded(x, y, z);
    AfterTake(three, 2);
    NotTakenIs(three + [Take], 2);
  }

  class BoundedQueue<T> {
    const capacity: nat
    var items: seq<T>
    ghost var history: History<T>

    ghost predicate Valid()
      reads this
    {
      history.capacity == capacity && history.Valid() && items == history.Kept()
    }

    constructor (capacity: nat)
      ensures Valid() && history == History(capacity, [], 0)
    {
      this.capacity := capacity;
      items, history := [], History(capacity, [], 0);
    }

    method Add(x: T)
      requires Valid()
      modifies this
      ensures Valid() && history == old(history).Add(x)
      ensures items == KeepNewest(old(items) + [x], capacity)
    {
      KeptAfterAdd(history, x);
      items := items + [x];
      if |items| > capacity {
        var excess := |items| - capacity;
        items := items[excess..];
      }
      history := history.Add(x);
    }

    /** The zero value of an empty queue is None. */
    method Take() returns (t: Option<T>)
      requires Valid()
      modifies this
      ensures Valid()
      ensures old(items) == [] ==> t == None && items == [] && history == old(history)
      ensures old(items) != [] ==> t == Some(old(items)[0]) && items == old(items)[1..]
      ensures old(items) != [] ==> history == old(history).Take()
    {
      if |items| == 0 {
        return None;
      }
      KeptAfterTake(history);
      t := Some(items[0]);
      items := items[1..];
      history := history.Take();
    }

    method Empty() returns (b: bool)
      ensures b <==> items == []
    {
      b := |items| == 0;
    }
  }

  // ----- Priorities -----

  predicate Sorted(s: seq<nat>) {
    forall i, j | 0 <= i < j < |s| :: s[i] < s[j]
  }

  ghost predicate AllValid<T>(view: map<nat, History<T>>) {
    forall p | p in view :: view[p].Valid()
  }

  ghost predicate AllEmpty<T>(view: map<nat, History<T>>)
    requires AllValid(view)
  {
    forall p | p in view :: view[p].Kept() == []
  }

  /** The smallest priority with something queued. */
  ghost predicate Smallest<T>(view: map<nat, History<T>>, p: nat)
    requires AllValid(view)
  {
    p in view && view[p].Kept() != [] && forall q | q in view && q < p :: view[q].Kept() == []
  }

  /** Insertion keeps a list of distinct priorities in ascending order. */
  method Insert(s: seq<nat>, p: nat) returns (r: seq<nat>)
    requires Sorted(s) && p !in s
    ensures Sorted(r) && (forall q :: q in r <==> q == p || q in s)
  {
    var i := 0;
    while i < |s| && s[i] < p
      invariant 0 <= i <= |s| && forall k | 0 <= k < i :: s[k] < p
    {
      i := i + 1;
    }
    r := s[..i] + [p] + s[i..];
    Inserted(s, i, p);
  }

  lemma Inserted(s: seq<nat>, i: nat, p: nat)
    requires Sorted(s) && p !in s && i <= |s|
    requires (forall k | 0 <= k < i :: s[k] < p) && (i < |s| ==> p <= s[i])
    ensures Sorted(s[..i] + [p] + s[i..])
    ensures forall q :: q in s[..i] + [p] + s[i..] <==> q == p || q in s
  {
    assert s == s[..i] + s[i..];
    assert i < |s| ==> s[i] in s;
  }

  /** The standard library's sort, on the distinct priorities it is given. */
  method SortPriorities(s: seq<nat>) returns (r: seq<nat>)
    requires forall i, j | 0 <= i < j < |s| :: s[i] != s[j]
    ensures Sorted(r) && (forall q :: q in r <==> q in s)
  {
    r := [];
    for i := 0 to |s|
      invariant Sorted(r) && (forall q :: q in r <==> q in s[..i])
    {
      r := Insert(r, s[i]);
    }
    assert s[..|s|] == s;
  }

  ghost predicate Listed(order: seq<nat>, priorities: set<nat>) {
    && (forall p :: p in order <==> p in priorities)
    && (forall i, j | 0 <= i < j < |order| :: order[i] != order[j])
  }

  class BoundedPriorityQueue<T> {
    var queues: map<nat, BoundedQueue<T>>
    var priorities: seq<nat>

    ghost predicate Valid()
      reads this, queues.Values
    {
      Shape() && forall p | p in queues :: queues[p].Valid()
    }

    /** The priorities are the keys, ascending, and no two of them share a queue. */
    ghost predicate Shape()
      reads this
    {
      && Sorted(priorities)
      && (forall p :: p in priorities <==> p in queues)
      && (forall p, q | p in queues && q in queues && p != q :: queues[p] != queues[q])
    }

    ghost function View(): (m: map<nat, History<T>>)
      requires Valid()
      reads this, queues.Values
      ensures AllValid(m)
    {
      map p | p in queues :: queues[p].history
    }

    /** Iterating over the capacities visits the priorities in some order, which the result does not depend on. */
    constructor (capacities: map<nat, nat>, order: seq<nat>)
      requires Listed(order, capacities.Keys)
      ensures Valid() && fresh(queues.Values)
      ensures View().Keys == capacities.Keys
      ensures forall p | p in capacities :: View()[p] == History(capacities[p], [], 0)
    {
      var made := MakeQueues(capacities, order);
      var sorted := SortPriorities(order);
      queues, priorities := made, sorted;
      new;
      assert forall p | p in queues :: queues[p].Valid();
    }

    static method MakeQueues(capacities: map<nat, nat>, order: seq<nat>) returns (made: map<nat, BoundedQueue<T>>)
      requires Listed(order, capacities.Keys)
      ensures Made(made, capacities) && made.Keys == capacities.Keys && fresh(made.Values)
    {
      made := map[];
      for i := 0 to |order|
        invariant Made(made, capacities) && fresh(made.Values)
        invariant forall p :: p in made <==> p in order[..i]
      {
        made := MakeOne(made, order[i], capacities);
      }
      assert order[..|order|] == order;
    }

    static method MakeOne(made: map<nat, BoundedQueue<T>>, p: nat, capacities: map<nat, nat>)
      returns (made': map<nat, BoundedQueue<T>>)
      requires Made(made, capacities) && p in capacities
      ensures Made(made', capacities)
      ensures made'.Keys == made.Keys + {p} && fresh(made'.Values - made.Values)
    {
      var queue := new BoundedQueue<T>(capacities[p]);
      OneMoreMade(made, capacities, p, queue);
      made' := made[p := queue];
      assert made'.Keys == made.Keys + {p};
    }

    static ghost predicate Made(made: map<nat, BoundedQueue<T>>, capacities: map<nat, nat>)
      reads made.Values
    {
      && made.Keys <= capacities.Keys
      && (forall p | p in made :: made[p].Valid() && made[p].history == History(capacities[p], [], 0))
      && (forall p, q | p in made && q in made && p != q :: made[p] != made[q])
    }

    static lemma OneMoreMade(made: map<nat, BoundedQueue<T>>, capacities: map<nat, nat>, p: nat, queue: BoundedQueue<T>)
      requires Made(made, capacities) && p in capacities && queue !in made.Values
      requires queue.Valid() && queue.history == History(capacities[p], [], 0)
      ensures Made(made[p := queue], capacities)
      ensures made[p := queue].Values <= made.Values + {queue}
    {
      assert forall q | q in made :: made[q] in made.Values;
    }

    /** When one queue object changed, the view changed at that priority alone. */
    twostate lemma OneChanged(p: nat)
      requires old(Valid()) && queues == old(queues) && priorities == old(priorities) && p in queues
      requires queues[p].Valid()
      requires forall q | q in queues && queues[q] != queues[p] :: unchanged(queues[q])
      ensures Valid() && View() == old(View())[p := queues[p].history]
    {
      forall q | q in queues
        ensures queues[q].Valid() && (q != p ==> queues[q].history == old(queues[q].history))
      {
      }
    }

    /** Adding to a priority that does not exist panics before anything changes. */
    method Add(priority: nat, x: T) returns (panics: bool)
      requires Valid()
      modifies queues.Values
      ensures Valid()
      ensures panics <==> priority !in old(View())
      ensures View() == if panics then old(View()) else old(View())[priority := old(View())[priority].Add(x)]
    {
      if priority !in queues {
        return true;
      }
      queues[priority].Add(x);
      panics := false;
      OneChanged(priority);
    }

    /** The ghost result is the priority that the item came from. */
    method Take() returns (t: Option<T>, ghost p: nat)
      requires Valid()
      modifies queues.Values
      ensures Valid()
      ensures t == None <==> AllEmpty(old(View()))
      ensures t == None ==> View() == old(View())
      ensures t != None ==> Taken(old(View()), p, t, View())
    {
      p := 0;
      var i := FirstNonEmpty();
      if i == |priorities| {
        return None, 0;
      }
      p := priorities[i];
      t := queues[priorities[i]].Take();
      OneChanged(p);
    }

    /** The loop of Take and of Empty: the position of the first priority whose queue is not empty. */
    method FirstNonEmpty() returns (i: nat)
      requires Valid()
      ensures i <= |priorities|
      ensures i == |priorities| <==> AllEmpty(View())
      ensures i < |priorities| ==> Smallest(View(), priorities[i])
    {
      i := 0;
      while i < |priorities|
        invariant 0 <= i <= |priorities|
        invariant forall k | 0 <= k < i :: queues[priorities[k]].items == []
      {
        var empty := queues[priorities[i]].Empty();
        if !empty {
          FirstIsSmallest(i);
          return;
        }
        i := i + 1;
      }
      NoneIsLeft();
    }

    lemma FirstIsSmallest(i: nat)
      requires Valid() && i < |priorities| && queues[priorities[i]].items != []
      requires forall k | 0 <= k < i :: queues[priorities[k]].items == []
      ensures Smallest(View(), priorities[i])
    {
      forall q | q in queues && q < priorities[i]
        ensures queues[q].items == []
      {
        var k :| 0 <= k < |priorities| && priorities[k] == q;
      }
    }

    lemma NoneIsLeft()
      requires Valid() && forall k | 0 <= k < |priorities| :: queues[priorities[k]].items == []
      ensures AllEmpty(View())
    {
      forall q | q in queues
        ensures queues[q].items == []
      {
        var k :| 0 <= k < |priorities| && priorities[k] == q;
      }
    }

    method Empty() returns (b: bool)
      requires Valid()
      ensures b <==> AllEmpty(View())
    {
      var i := FirstNonEmpty();
      b := i == |priorities|;
    }
  }

  /** Take hands out the oldest kept item of the smallest non-empty priority and leaves every other priority alone. */
  ghost predicate Taken<T>(before: map<nat, History<T>>, p: nat, t: Option<T>, after: map<nat, History<T>>)
    requires AllValid(before)
  {
    Smallest(before, p) && t == Some(before[p].Kept()[0]) && after == before[p := before[p].Take()]
  }
}
