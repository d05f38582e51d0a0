/** What mailboxes and bounded queues share: keeping the newest items of a sequence. */
module NewestItems {
  import opened Wrappers

  function KeepNewest<T>(s: seq<T>, k: nat): seq<T> {
    if |s| > k then s[|s| - k..] else s
  }

  /** A list that fits is the newest part of itself with more in front exactly if it is full or nothing is in front. */
  lemma KeepsAllIff<T>(front: seq<T>, s: seq<T>, k: nat)
    requires |s| <= k
    ensures KeepNewest(front + s, k) == s <==> |s| == k || front == []
  {
    if |s| == k {
      assert KeepNewest(front + s, k) == s;
    }
  }

  function Reversed<T>(s: seq<T>): (r: seq<T>)
    ensures |r| == |s| && forall i | 0 <= i < |s| :: r[i] == s[|s| - 1 - i]
  {
    seq(|s|, i requires 0 <= i < |s| => s[|s| - 1 - i])
  }

  /** The indices from lo to below hi. */
  function Range(lo: nat, hi: nat): (r: seq<nat>)
    ensures |r| == (if lo <= hi then hi - lo else 0) && forall i | 0 <= i < |r| :: r[i] == lo + i
  {
    seq(if lo <= hi then hi - lo else 0, i => lo + i)
  }
}

/** The mailbox of core/utils/mailbox.go. Its queue holds the newest item first. */
module MailboxQueue {
  import opened Wrappers
  import opened NewestItems

  // ----- The first-in-first-out buffer a mailbox is, oldest item first -----

  /** Capacity 0 means no bound. */
  function Bounded<T>(items: seq<T>, capacity: nat): seq<T> {
    if capacity == 0 then items else KeepNewest(items, capacity)
  }

  // ----- Runs: items are known by the index of their delivery -----

  datatype Op = Deliver | Retrieve | RetrieveAll | RetrieveLatestAndClear

  /** The buffer, the number of deliveries, and where the indices that left the buffer went. */
  datatype Ledger = Ledger(items: seq<nat>, n: nat, retrieved: seq<nat>, dropped: seq<nat>, cleared: seq<nat>)

  function NoCalls(): Ledger {
    Ledger([], 0, [], [], [])
  }

  /** One call, as the contracts of the methods describe it. */
  function Step(l: Ledger, capacity: nat, op: Op): Ledger {
    match op
    case Deliver =>
      var all := l.items + [l.n];
      var kept := Bounded(all, capacity);
      l.(items := kept, n := l.n + 1, dropped := l.dropped + all[..|all| - |kept|])
    case Retrieve =>
      if l.items == [] then l else l.(items := l.items[1..], retrieved := l.retrieved + [l.items[0]])
    case RetrieveAll =>
      l.(items := [], retrieved := l.retrieved + l.items)
    case RetrieveLatestAndClear =>
      if l.items == [] then l else
      var last := |l.items| - 1;
      l.(items := [], retrieved := l.retrieved + [l.items[last]], cleared := l.cleared + l.items[..last])
  }

  function Run(ops: seq<Op>, capacity: nat): Ledger {
    if ops == [] then NoCalls()
    else Step(Run(ops[..|ops| - 1], capacity), capacity, ops[|ops| - 1])
  }

  /** One more than the latest index that was taken out by a caller, retrieved or cleared. */
  function Low(l: Ledger): nat {
    if l.retrieved == [] then 0 else l.retrieved[|l.retrieved| - 1] + 1
  }

  /** The oldest index a buffer of this capacity can still hold. */
  function Horizon(n: nat, capacity: nat): nat {
    if capacity == 0 || n <= capacity then 0 else n - capacity
  }

  predicate Increasing(s: seq<nat>) {
    forall i, j | 0 <= i < j < |s| :: s[i] < s[j]
  }

  /** The buffer is the newest deliveries that fit and come after everything a caller took out. */
  ghost predicate Placed(l: Ledger, capacity: nat) {
    && l.items == Range(Max(Low(l), Horizon(l.n, capacity)), l.n)
    && Low(l) <= l.n
    && Increasing(l.retrieved)
  }

  /** Every delivery is in exactly one place. */
  ghost predicate Counted(l: Ledger) {
    Places(l.retrieved, l.dropped, l.cleared, l.items) == multiset(Range(0, l.n))
  }

  ghost function Places(retrieved: seq<nat>, dropped: seq<nat>, cleared: seq<nat>, items: seq<nat>): multiset<nat> {
    multiset(retrieved) + multiset(dropped) + multiset(cleared) + multiset(items)
  }

  lemma StepPlaced(l: Ledger, capacity: nat, op: Op)
    requires Placed(l, capacity)
    ensures Placed(Step(l, capacity, op), capacity)
  {
    if op == Deliver {
      BoundedRange(Max(Low(l), Horizon(l.n, capacity)), l.n, capacity);
    } else if l.items != [] {
      TakePlaced(l, capacity, op);
    }
  }

  lemma TakePlaced(l: Ledger, capacity: nat, op: Op)
    requires Placed(l, capacity) && l.items != [] && op != Deliver
    ensures Placed(Step(l, capacity, op), capacity)
  {
    var out := if op == Retrieve then [l.items[0]] else if op == RetrieveAll then l.items else [l.items[|l.items| - 1]];
    Appended(l.retrieved, out);
  }

  /** Where the oldest kept index moves when one more is delivered. */
  lemma BoundedRange(lo: nat, n: nat, capacity: nat)
    requires Horizon(n, capacity) <= lo <= n
    ensures Range(lo, n) + [n] == Range(lo, n + 1)
    ensures Bounded(Range(lo, n) + [n], capacity) == Range(Max(lo, Horizon(n + 1, capacity)), n + 1)
  {
  }

  lemma Appended(s: seq<nat>, t: seq<nat>)
    requires Increasing(s) && Increasing(t)
    requires s != [] && t != [] ==> s[|s| - 1] < t[0]
    ensures Increasing(s + t)
  {
  }

  lemma StepCounted(l: Ledger, capacity: nat, op: Op)
    requires Counted(l)
    ensures Counted(Step(l, capacity, op))
  {
    match op
    case Deliver => DeliverCounted(l, capacity);
    case Retrieve => if l.items != [] { TakeFirst(l); }
    case RetrieveAll => TakeEvery(l);
    case RetrieveLatestAndClear => if l.items != [] { TakeLast(l); }
  }

  lemma Joined(s: seq<nat>, t: seq<nat>)
    ensures multiset(s + t) == multiset(s) + multiset(t)
  {
  }

  lemma DeliverCounted(l: Ledger, capacity: nat)
    requires Counted(l)
    ensures Counted(Step(l, capacity, Deliver))
  {
    var all := l.items + [l.n];
    var kept := Bounded(all, capacity);
    var out := all[..|all| - |kept|];
    assert out + kept == all;
    assert Range(0, l.n + 1) == Range(0, l.n) + [l.n];
    Joined(l.items, [l.n]);
    Joined(out, kept);
    Joined(l.dropped, out);
    Joined(Range(0, l.n), [l.n]);
    Regrouped(multiset(l.retrieved), multiset(l.dropped), multiset(l.cleared), multiset(l.items), multiset(out),
      multiset(kept), multiset(Range(0, l.n)), multiset([l.n]));
  }

  lemma Regrouped(r: multiset<nat>, d: multiset<nat>, c: multiset<nat>, items: multiset<nat>, front: multiset<nat>,
      back: multiset<nat>, all: multiset<nat>, x: multiset<nat>)
    requires r + d + c + items == all
    requires front + back == items + x
    ensures r + (d + front) + c + back == all + x
  {
    assert r + (d + front) + c + back == r + d + c + (front + back);
  }

  lemma TakeFirst(l: Ledger)
    requires l.items != []
    ensures Places(l.retrieved + [l.items[0]], l.dropped, l.cleared, l.items[1..])
         == Places(l.retrieved, l.dropped, l.cleared, l.items)
  {
    Joined(l.retrieved, [l.items[0]]);
    Joined([l.items[0]], l.items[1..]);
    assert l.items == [l.items[0]] + l.items[1..];
  }

  lemma TakeEvery(l: Ledger)
    ensures Places(l.retrieved + l.items, l.dropped, l.cleared, [])
         == Places(l.retrieved, l.dropped, l.cleared, l.items)
  {
    Joined(l.retrieved, l.items);
  }

  lemma TakeLast(l: Ledger)
    requires l.items != []
    ensures var last := |l.items| - 1;
      Places(l.retrieved + [l.items[last]], l.dropped, l.cleared + l.items[..last], [])
        == Places(l.retrieved, l.dropped, l.cleared, l.items)
  {
    var last := |l.items| - 1;
    Joined(l.retrieved, [l.items[last]]);
    Joined(l.cleared, l.items[..last]);
    Joined(l.items[..last], [l.items[last]]);
    assert l.items == l.items[..last] + [l.items[last]];
  }

  /** Any run of the four operations: the buffer holds exactly those of the newest `capacity` deliveries that come after
      the latest one taken out; what was retrieved came out in delivery order; and every delivery is in exactly one
      place. */
  lemma {:induction false} RunPlacesAll(ops: seq<Op>, capacity: nat)
    ensures Placed(Run(ops, capacity), capacity) && Counted(Run(ops, capacity))
  {
    if ops == [] {
      assert Range(0, 0) == [];
    } else {
      RunPlacesAll(ops[..|ops| - 1], capacity);
      StepPlaced(Run(ops[..|ops| - 1], capacity), capacity, ops[|ops| - 1]);
      StepCounted(Run(ops[..|ops| - 1], capacity), capacity, ops[|ops| - 1]);
    }
  }

  // ----- Items that were pushed out -----

  lemma InOrder(s: seq<nat>, out: seq<nat>, kept: seq<nat>, all: seq<nat>)
    requires out + kept == all
    ensures (s + out) + kept == s + all
  {
  }

  lemma SubOrder(s: seq<nat>, t: seq<nat>, first: nat, n: nat)
    requires OrderedBelow(s + t, n) && first <= |t|
    ensures OrderedBelow(s + t[first..], n)
  {
    var all, less := s + t, s + t[first..];
    forall i | 0 <= i < |less|
      ensures less[i] < n && (forall j | i < j < |less| :: less[i] < less[j])
    {
      assert less[i] == all[if i < |s| then i else i + first];
      assert forall j | i < j < |less| :: less[j] == all[if j < |s| then j else j + first];
    }
  }

  predicate OrderedBelow(s: seq<nat>, n: nat) {
    Increasing(s) && AllBelow(s, n)
  }

  /** What was dropped and what is queued are, one after the other, all deliveries not taken out, in order. */
  predicate NotTakenInOrder(l: Ledger) {
    OrderedBelow(l.dropped + l.items, l.n)
  }

  lemma StepKeepsOrder(l: Ledger, capacity: nat, op: Op)
    requires NotTakenInOrder(l)
    ensures NotTakenInOrder(Step(l, capacity, op))
  {
    if op == Deliver {
      var all := l.items + [l.n];
      var kept := Bounded(all, capacity);
      AddLast(l.dropped, l.items, l.n);
      InOrder(l.dropped, all[..|all| - |kept|], kept, all);
    } else if l.items != [] {
      SubOrder(l.dropped, l.items, if op == Retrieve then 1 else |l.items|, l.n);
      assert l.items[|l.items|..] == [];
    }
  }

  lemma AddLast(s: seq<nat>, t: seq<nat>, x: nat)
    requires OrderedBelow(s + t, x)
    ensures OrderedBelow(s + (t + [x]), x + 1)
  {
    assert s + (t + [x]) == (s + t) + [x];
  }

  lemma {:induction false} RunKeepsOrder(ops: seq<Op>, capacity: nat)
    ensures NotTakenInOrder(Run(ops, capacity))
  {
    if ops == [] {
    } else {
      RunKeepsOrder(ops[..|ops| - 1], capacity);
      StepKeepsOrder(Run(ops[..|ops| - 1], capacity), capacity, ops[|ops| - 1]);
    }
  }

  lemma RoomLeft(l: Ledger, capacity: nat)
    requires Placed(l, capacity)
    ensures capacity > 0 ==> |l.items| <= capacity
    ensures |Step(l, capacity, Deliver).dropped| ==
            |l.dropped| + if capacity > 0 && |l.items| == capacity then 1 else 0
  {
  }

  /** The queue is the newest of all deliveries not taken out exactly if it is full, or nothing was ever dropped. */
  lemma NewestNotTakenIff(ops: seq<Op>, capacity: nat)
    ensures var l := Run(ops, capacity);
      && Increasing(l.dropped + l.items)
      && (Bounded(l.dropped + l.items, capacity) == l.items <==>
            (capacity > 0 && |l.items| == capacity) || l.dropped == [])
  {
    var l := Run(ops, capacity);
    RunKeepsOrder(ops, capacity);
    RunPlacesAll(ops, capacity);
    RoomLeft(l, capacity);
    if capacity > 0 {
      KeepsAllIff(l.dropped, l.items, capacity);
    }
  }

  lemma OneMoreCall(ops: seq<Op>, op: Op, capacity: nat)
    ensures Run(ops + [op], capacity) == Step(Run(ops, capacity), capacity, op)
  {
    assert (ops + [op])[..|ops|] == ops;
  }

  /** Three deliveries to a mailbox with room for two, one call at a time. */
  lemma ThreeSteps(one: Ledger, two: Ledger)
    requires one == Step(NoCalls(), 2, Deliver) && two == Step(one, 2, Deliver)
    ensures two == Ledger([0, 1], 2, [], [], [])
    ensures Step(two, 2, Deliver) == Ledger([1, 2], 3, [], [0], [])
  {
    assert one == Ledger([0], 1, [], [], []);
  }

  lemma RetrieveStep(l: Ledger)
    requires l == Ledger([1, 2], 3, [], [0], [])
    ensures Step(l, 2, Retrieve) == Ledger([2], 3, [1], [0], [])
    ensures Bounded([0] + [2], 2) == [0, 2]
  {
  }

  lemma FirstCall(op: Op, capacity: nat)
    ensures Run([op], capacity) == Step(NoCalls(), capacity, op)
  {
    assert [op][..0] == [];
  }

  /** A full queue that an item was retrieved from is not: what it dropped does not come back. */
  lemma DroppedStaysOut(three: seq<Op>)
    requires three == [Deliver] + [Deliver] + [Deliver]
    ensures var l := Run(three + [Retrieve], 2);
      l == Ledger([2], 3, [1], [0], []) && Bounded(l.dropped + l.items, 2) == [0, 2]
  {
    FirstCall(Deliver, 2);
    OneMoreCall([Deliver], Deliver, 2);
    OneMoreCall([Deliver] + [Deliver], Deliver, 2);
    OneMoreCall(three, Retrieve, 2);
    ThreeSteps(Run([Deliver], 2), Run([Deliver] + [Deliver], 2));
    RetrieveStep(Run(three, 2));
  }

  // ----- The same steps on the delivered values -----

  predicate Known<T>(l: Ledger, delivered: seq<T>) {
    l.n == |delivered| && AllBelow(l.items, l.n)
  }

  predicate AllBelow(indices: seq<nat>, n: nat) {
    forall i | 0 <= i < |indices| :: indices[i] < n
  }

  function Lookup<T>(indices: seq<nat>, values: seq<T>): seq<T>
    requires AllBelow(indices, |values|)
  {
    seq(|indices|, i requires 0 <= i < |indices| => values[indices[i]])
  }

  lemma KeptOnValues<T>(indices: seq<nat>, values: seq<T>, k: nat)
    requires AllBelow(indices, |values|)
    ensures AllBelow(KeepNewest(indices, k), |values|)
    ensures Lookup(KeepNewest(indices, k), values) == KeepNewest(Lookup(indices, values), k)
  {
  }

  lemma DeliverOnValues<T>(l: Ledger, values: seq<T>, x: T, capacity: nat)
    requires l.n == |values| && AllBelow(l.items, l.n)
    ensures AllBelow(Step(l, capacity, Deliver).items, l.n + 1)
    ensures Lookup(Step(l, capacity, Deliver).items, values + [x]) == Bounded(Lookup(l.items, values) + [x], capacity)
  {
    assert Lookup(l.items + [l.n], values + [x]) == Lookup(l.items, values) + [x];
    KeptOnValues(l.items + [l.n], values + [x], capacity);
  }

  /** What the other three hand out and leave behind is, looked up, what the methods hand out and leave behind. */
  lemma TakeOnValues<T>(l: Ledger, values: seq<T>, op: Op, capacity: nat)
    requires l.n == |values| && AllBelow(l.items, l.n) && op != Deliver
    ensures AllBelow(Step(l, capacity, op).items, l.n) && |l.retrieved| <= |Step(l, capacity, op).retrieved|
    ensures AllBelow(Step(l, capacity, op).retrieved[|l.retrieved|..], l.n)
    ensures var contents := Lookup(l.items, values);
      var out := Lookup(Step(l, capacity, op).retrieved[|l.retrieved|..], values);
      var left := Lookup(Step(l, capacity, op).items, values);
      && (op == RetrieveAll ==> out == contents && left == [])
      && (op != RetrieveAll && contents == [] ==> out == [] && left == [])
      && (op == Retrieve && contents != [] ==> out == [contents[0]] && left == contents[1..])
      && (op == RetrieveLatestAndClear && contents != [] ==> out == [contents[|contents| - 1]] && left == [])
  {
  }

  method SwapEnds<T>(items: array<T>)
    modifies items
    ensures items[..] == Reversed(old(items[..]))
  {
    var i, j := 0, items.Length - 1;
    while i < j
      invariant 0 <= i <= items.Length && j == items.Length - 1 - i && i <= j + 2
      invariant forall k | 0 <= k < i || j < k < items.Length :: items[k] == old(items[items.Length - 1 - k])
      invariant forall k | i <= k <= j :: items[k] == old(items[k])
    {
      items[i], items[j] := items[j], items[i];
      i, j := i + 1, j - 1;
    }
  }

  lemma TakeKeeps<T>(l: Ledger, l': Ledger, delivered: seq<T>, op: Op, capacity: nat, contents: seq<T>)
    requires l' == Step(l, capacity, op) && Known(l, delivered) && Placed(l, capacity) && Counted(l) && op != Deliver
    requires contents == Lookup(l.items, delivered)
    ensures Known(l', delivered) && Placed(l', capacity) && Counted(l')
    ensures Lookup(l'.items, delivered) == if op == Retrieve && contents != [] then contents[1..] else []
  {
    StepPlaced(l, capacity, op);
    StepCounted(l, capacity, op);
    TakeOnValues(l, delivered, op, capacity);
  }

  lemma DeliverKeeps<T>(l: Ledger, delivered: seq<T>, x: T, capacity: nat, contents: seq<T>)
    requires Known(l, delivered) && Placed(l, capacity) && Counted(l)
    requires contents == Lookup(l.items, delivered)
    ensures var l' := Step(l, capacity, Deliver);
      && Known(l', delivered + [x]) && Placed(l', capacity) && Counted(l')
      && Lookup(l'.items, delivered + [x]) == Bounded(contents + [x], capacity)
  {
    StepPlaced(l, capacity, Deliver);
    StepCounted(l, capacity, Deliver);
    DeliverOnValues(l, delivered, x, capacity);
  }

  // ----- The mailbox -----

  class Mailbox<T> {
    var queue: seq<T>
    var notify: bool
    const capacity: nat
    ghost var delivered: seq<T>
    ghost var ledger: Ledger

    /** The queue holds the items that the ledger of all calls so far says, newest first. */
    ghost predicate Valid()
      reads this
    {
      && Known(ledger, delivered) && Placed(ledger, capacity) && Counted(ledger)
      && Contents() == Lookup(ledger.items, delivered)
    }

    ghost function Contents(): (s: seq<T>)
      reads this
    {
      Reversed(queue)
    }

    constructor (capacity: nat)
      ensures Valid() && Contents() == [] && !notify && this.capacity == capacity
      ensures delivered == [] && ledger == NoCalls()
    {
      this.capacity := capacity;
      queue, notify, delivered, ledger := [], false, [], NoCalls();
      new;
      assert Range(0, 0) == [];
    }

    method Deliver(x: T) returns (wasOverCapacity: bool)
      requires Valid()
      modifies this
      ensures Valid() && notify
      ensures delivered == old(delivered) + [x] && ledger == Step(old(ledger), capacity, Op.Deliver)
      ensures Contents() == Bounded(old(Contents()) + [x], capacity)
      ensures wasOverCapacity <==> |ledger.dropped| == |old(ledger).dropped| + 1
      ensures !wasOverCapacity <==> ledger.dropped == old(ledger).dropped
    {
      DeliverKeeps(ledger, delivered, x, capacity, Contents());
      RoomLeft(ledger, capacity);
      wasOverCapacity := Push(x);
      delivered := delivered + [x];
      ledger := Step(ledger, capacity, Op.Deliver);
      notify := true;
    }

    /** The statements on the queue. */
    method Push(x: T) returns (over: bool)
      requires capacity > 0 ==> |queue| <= capacity
      modifies this`queue
      ensures Contents() == Bounded(old(Contents()) + [x], capacity)
      ensures over <==> capacity > 0 && |old(queue)| == capacity
    {
      over := false;
      queue := [x] + queue;
      assert Reversed(queue) == old(Contents()) + [x];
      if |queue| > capacity && capacity > 0 {
        queue := queue[..|queue| - 1];
        assert Reversed(queue) == (old(Contents()) + [x])[1..];
        over := true;
      }
    }

    method Retrieve() returns (t: Option<T>)
      requires Valid()
      modifies this`queue, this`ledger
      ensures Valid()
      ensures ledger == Step(old(ledger), capacity, Op.Retrieve)
      ensures old(Contents()) == [] ==> t == None && Contents() == []
      ensures old(Contents()) != [] ==> t == Some(old(Contents())[0]) && Contents() == old(Contents())[1..]
    {
      ghost var after := Step(ledger, capacity, Op.Retrieve);
      TakeKeeps(ledger, after, delivered, Op.Retrieve, capacity, Contents());
      t := PopOldest();
      ledger := after;
    }

    method PopOldest() returns (t: Option<T>)
      modifies this`queue
      ensures old(Contents()) == [] ==> t == None && Contents() == []
      ensures old(Contents()) != [] ==> t == Some(old(Contents())[0]) && Contents() == old(Contents())[1..]
    {
      if |queue| == 0 {
        return None;
      }
      t := Some(queue[|queue| - 1]);
      queue := queue[..|queue| - 1];
    }

    /** The two-index swap leaves the oldest item first. */
    method RetrieveAll() returns (all: seq<T>)
      requires Valid()
      modifies this`queue, this`ledger
      ensures Valid()
      ensures ledger == Step(old(ledger), capacity, Op.RetrieveAll)
      ensures all == old(Contents()) && Contents() == []
    {
      ghost var after := Step(ledger, capacity, Op.RetrieveAll);
      TakeKeeps(ledger, after, delivered, Op.RetrieveAll, capacity, Contents());
      all := TakeReversed();
      ledger := after;
    }

    method TakeReversed() returns (all: seq<T>)
      modifies this`queue
      ensures all == old(Contents()) && Contents() == []
    {
      var items := new T[|queue|](i requires 0 <= i < |queue| reads this => queue[i]);
      assert items[..] == queue;
      queue := [];
      SwapEnds(items);
      all := items[..];
    }

    method RetrieveLatestAndClear() returns (t: Option<T>)
      requires Valid()
      modifies this`queue, this`ledger
      ensures Valid() && Contents() == []
      ensures ledger == Step(old(ledger), capacity, Op.RetrieveLatestAndClear)
      ensures old(Contents()) == [] ==> t == None
      ensures old(Contents()) != [] ==> t == Some(old(Contents())[|old(Contents())| - 1])
    {
      ghost var after := Step(ledger, capacity, Op.RetrieveLatestAndClear);
      TakeKeeps(ledger, after, delivered, Op.RetrieveLatestAndClear, capacity, Contents());
      t := TakeLatest();
      ledger := after;
    }

    method TakeLatest() returns (t: Option<T>)
      modifies this`queue
      ensures old(Contents()) == [] ==> t == None
      ensures old(Contents()) != [] ==> t == Some(old(Contents())[|old(Contents())| - 1])
      ensures Contents() == []
    {
      if |queue| == 0 {
        return None;
      }
      t := Some(queue[0]);
      queue := [];
    }
  }
}
