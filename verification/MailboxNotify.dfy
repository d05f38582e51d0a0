/** The notify channel of core/utils/mailbox.go: any number of goroutines calling Deliver, and any number of consumers
    that wait on Notify and then call Retrieve until it reports an empty queue. */
module MailboxNotify {
  import opened Wrappers
  import opened NewestItems
  import Q = MailboxQueue

  type Tid = int

  /** The mutex, the queue with its history, and whether the one-slot channel holds a token. */
  datatype Shared = Shared(mutex: Option<Tid>, l: Q.Ledger, notify: bool)

  datatype Pc =
    | Idle | DeliverLocked | Added | Notified
    | Waiting | Draining | RetrieveLocked | Retrieved(ok: bool)

  datatype Sys = Sys(sh: Shared, pcs: map<Tid, Pc>)

  predicate HoldsLock(pc: Pc) {
    pc in {DeliverLocked, Added, Notified, RetrieveLocked} || pc.Retrieved?
  }

  predicate DeliverStep(capacity: nat, t: Tid, h: Shared, pc: Pc, h': Shared, pc': Pc) {
    match pc
    case Idle => h.mutex == None && h' == h.(mutex := Some(t)) && pc' == DeliverLocked
    case DeliverLocked => h' == h.(l := Q.Step(h.l, capacity, Q.Deliver)) && pc' == Added
    case Added => h' == h.(notify := true) && pc' == Notified
    case Notified => h' == h.(mutex := None) && pc' == Idle
    case _ => false
  }

  predicate ConsumeStep(capacity: nat, t: Tid, h: Shared, pc: Pc, h': Shared, pc': Pc) {
    match pc
    case Waiting => h.notify && h' == h.(notify := false) && pc' == Draining
    case Draining => h.mutex == None && h' == h.(mutex := Some(t)) && pc' == RetrieveLocked
    case RetrieveLocked => h' == h.(l := Q.Step(h.l, capacity, Q.Retrieve)) && pc' == Retrieved(h.l.items != [])
    case Retrieved(ok) => h' == h.(mutex := None) && pc' == if ok then Draining else Waiting
    case _ => false
  }

  ghost predicate Step(capacity: nat, s: Sys, s': Sys, t: Tid) {
    && t in s.pcs && t in s'.pcs && s'.pcs == s.pcs[t := s'.pcs[t]]
    && (DeliverStep(capacity, t, s.sh, s.pcs[t], s'.sh, s'.pcs[t]) ||
        ConsumeStep(capacity, t, s.sh, s.pcs[t], s'.sh, s'.pcs[t]))
  }

  ghost predicate Next(capacity: nat, s: Sys, s': Sys) {
    exists t :: Step(capacity, s, s', t)
  }

  ghost predicate Init(s: Sys) {
    && s.sh == Shared(None, Q.Ledger([], 0, [], [], []), false)
    && forall t | t in s.pcs :: s.pcs[t] in {Idle, Waiting}
  }

  ghost predicate IsRun(capacity: nat, r: seq<Sys>) {
    |r| > 0 && Init(r[0]) && forall i, j :: 0 <= i && j == i + 1 && j < |r| ==> Next(capacity, r[i], r[j])
  }

  // ----- The invariant -----

  ghost predicate LockInv(s: Sys) {
    && (forall t | t in s.pcs :: HoldsLock(s.pcs[t]) <==> s.sh.mutex == Some(t))
    && (forall t | t in s.pcs :: s.pcs[t] == Retrieved(false) ==> s.sh.l.items == [])
  }

  /** Sees to it that a non-empty queue is looked at: a consumer before its last Retrieve, or a Deliver about to
      notify. */
  predicate Responsible(pc: Pc) {
    pc in {Added, Draining, RetrieveLocked, Retrieved(true)}
  }

  ghost predicate Covered(s: Sys) {
    s.sh.l.items != [] ==> s.sh.notify || exists t :: t in s.pcs && Responsible(s.pcs[t])
  }

  ghost predicate HistoryInv(capacity: nat, l: Q.Ledger) {
    && Q.Placed(l, capacity) && Q.Counted(l) && l.cleared == []
    && (capacity == 0 ==> l.retrieved + l.items == Range(0, l.n))
  }

  ghost predicate Inv(capacity: nat, s: Sys) {
    LockInv(s) && Covered(s) && HistoryInv(capacity, s.sh.l)
  }

  lemma StepKeepsLock(capacity: nat, s: Sys, s': Sys, t: Tid)
    requires LockInv(s) && Step(capacity, s, s', t)
    ensures LockInv(s')
  {
  }

  lemma StepKeepsCovered(capacity: nat, s: Sys, s': Sys, t: Tid)
    requires LockInv(s) && Covered(s) && Step(capacity, s, s', t)
    ensures Covered(s')
  {
    if s'.sh.l.items != [] && !s'.sh.notify && !Responsible(s'.pcs[t]) {
      var u :| u in s.pcs && Responsible(s.pcs[u]);
      assert u in s'.pcs && Responsible(s'.pcs[u]);
    }
  }

  lemma LedgerMoves(capacity: nat, s: Sys, s': Sys, t: Tid)
    requires Step(capacity, s, s', t)
    ensures s'.sh.l in {s.sh.l, Q.Step(s.sh.l, capacity, Q.Deliver), Q.Step(s.sh.l, capacity, Q.Retrieve)}
  {
  }

  lemma StepKeepsHistory(capacity: nat, s: Sys, s': Sys, t: Tid)
    requires HistoryInv(capacity, s.sh.l) && Step(capacity, s, s', t)
    ensures HistoryInv(capacity, s'.sh.l)
  {
    LedgerMoves(capacity, s, s', t);
    OpKeepsHistory(capacity, s.sh.l, Q.Deliver);
    OpKeepsHistory(capacity, s.sh.l, Q.Retrieve);
  }

  lemma OpKeepsHistory(capacity: nat, l: Q.Ledger, op: Q.Op)
    requires HistoryInv(capacity, l) && op in {Q.Deliver, Q.Retrieve}
    ensures HistoryInv(capacity, Q.Step(l, capacity, op))
  {
    Q.StepPlaced(l, capacity, op);
    Q.StepCounted(l, capacity, op);
    if capacity == 0 {
      InOrder(l, op);
    }
  }

  lemma InOrder(l: Q.Ledger, op: Q.Op)
    requires l.retrieved + l.items == Range(0, l.n) && op in {Q.Deliver, Q.Retrieve}
    ensures var l' := Q.Step(l, 0, op); l'.retrieved + l'.items == Range(0, l'.n)
  {
    if op == Q.Deliver {
      AddLast(l.retrieved, l.items, l.n);
      assert Range(0, l.n + 1) == Range(0, l.n) + [l.n];
    } else if l.items != [] {
      MoveFirst(l.retrieved, l.items);
    }
  }

  lemma AddLast(s: seq<nat>, t: seq<nat>, x: nat)
    ensures s + (t + [x]) == (s + t) + [x]
  {
  }

  lemma MoveFirst(s: seq<nat>, t: seq<nat>)
    requires t != []
    ensures (s + [t[0]]) + t[1..] == s + t
  {
  }

  lemma NextKeepsInv(capacity: nat, s: Sys, s': Sys)
    requires Inv(capacity, s) && Next(capacity, s, s')
    ensures Inv(capacity, s')
  {
    var t :| Step(capacity, s, s', t);
    StepKeepsLock(capacity, s, s', t);
    StepKeepsCovered(capacity, s, s', t);
    StepKeepsHistory(capacity, s, s', t);
  }

  lemma {:induction false} RunInv(capacity: nat, r: seq<Sys>, i: nat)
    requires IsRun(capacity, r) && i < |r|
    ensures Inv(capacity, r[i])
  {
    if i == 0 {
      assert Range(0, 0) == [];
    } else {
      RunInv(capacity, r, i - 1);
      NextKeepsInv(capacity, r[i - 1], r[i]);
    }
  }

  // ----- No notification is lost -----

  /** Whenever the mutex is free and the queue is not empty, the channel holds a token or a consumer is draining. */
  lemma NoNotificationLost(capacity: nat, r: seq<Sys>, i: nat)
    requires IsRun(capacity, r) && i < |r|
    requires r[i].sh.mutex == None && r[i].sh.l.items != []
    ensures r[i].sh.notify || exists t :: t in r[i].pcs && r[i].pcs[t] == Draining
  {
    RunInv(capacity, r, i);
  }

  /** When every consumer is waiting for a token that is not there, and no Deliver is under way, the consumers have been
      handed every item that was not dropped for lack of room, in order of delivery. */
  lemma WaitingMeansCaughtUp(capacity: nat, r: seq<Sys>, i: nat)
    requires IsRun(capacity, r) && i < |r|
    requires r[i].sh.mutex == None && !r[i].sh.notify && forall t | t in r[i].pcs :: r[i].pcs[t] != Draining
    ensures var l := r[i].sh.l;
      && l.items == [] && Q.Increasing(l.retrieved)
      && multiset(l.retrieved) + multiset(l.dropped) == multiset(Range(0, l.n))
      && (capacity == 0 ==> l.retrieved == Range(0, l.n))
  {
    RunInv(capacity, r, i);
    if r[i].sh.l.items != [] {
      NoNotificationLost(capacity, r, i);
    }
  }

  // ----- Each call is one step of the queue -----

  /** How far a call that has the mutex has got with the queue, which was `l` when it got it. */
  predicate Progress(capacity: nat, l: Q.Ledger, op: Q.Op, now: Q.Ledger, pc: Pc) {
    match pc
    case DeliverLocked => op == Q.Deliver && now == l
    case RetrieveLocked => op == Q.Retrieve && now == l
    case Added | Notified => op == Q.Deliver && now == Q.Step(l, capacity, op)
    case Retrieved(ok) => op == Q.Retrieve && now == Q.Step(l, capacity, op) && ok == (l.items != [])
    case _ => false
  }

  /** After the call: a Deliver is over, and a Retrieve goes on draining exactly if it got an item. */
  predicate Completes(capacity: nat, l: Q.Ledger, op: Q.Op, now: Q.Ledger, pc: Pc) {
    && now == Q.Step(l, capacity, op)
    && pc == if op == Q.Deliver then Idle else if l.items != [] then Draining else Waiting
  }

  lemma HolderMoves(capacity: nat, s: Sys, s': Sys, t: Tid, l: Q.Ledger, op: Q.Op)
    requires Step(capacity, s, s', t) && Progress(capacity, l, op, s.sh.l, s.pcs[t])
    ensures if HoldsLock(s'.pcs[t]) then Progress(capacity, l, op, s'.sh.l, s'.pcs[t])
            else Completes(capacity, l, op, s'.sh.l, s'.pcs[t]) && s'.sh.mutex == None
  {
  }

  lemma OthersKeepLedger(capacity: nat, s: Sys, s': Sys, t: Tid, u: Tid)
    requires LockInv(s) && Step(capacity, s, s', u) && t in s.pcs && u != t && HoldsLock(s.pcs[t])
    ensures s'.sh.l == s.sh.l && s'.pcs[t] == s.pcs[t]
  {
  }

  ghost predicate HoldsAt(r: seq<Sys>, k: nat, t: Tid) {
    k < |r| && t in r[k].pcs && HoldsLock(r[k].pcs[t])
  }

  lemma {:induction false} HolderProgress(capacity: nat, r: seq<Sys>, i: nat, j: nat, t: Tid, op: Q.Op)
    requires IsRun(capacity, r) && i <= j && forall k: nat | i <= k <= j :: HoldsAt(r, k, t)
    requires HoldsAt(r, i, t) && r[i].pcs[t] == if op == Q.Deliver then DeliverLocked else RetrieveLocked
    requires op == Q.Deliver || op == Q.Retrieve
    ensures HoldsAt(r, j, t) && Progress(capacity, r[i].sh.l, op, r[j].sh.l, r[j].pcs[t])
    decreases j - i
  {
    assert HoldsAt(r, j, t);
    if i == j {
    } else {
      var m := j - 1;
      HolderProgress(capacity, r, i, m, t, op);
      RunInv(capacity, r, m);
      var u :| Step(capacity, r[m], r[j], u);
      if u == t {
        HolderMoves(capacity, r[m], r[j], t, r[i].sh.l, op);
      } else {
        OthersKeepLedger(capacity, r[m], r[j], t, u);
      }
    }
  }

  /** From the lock to the unlock, a call of Deliver adds its item to the queue as it was at the lock, and a call of
      Retrieve takes the oldest item of it, or reports that there is none; nothing else happens to the queue. */
  lemma CallIsAtomic(capacity: nat, r: seq<Sys>, i: nat, j: nat, t: Tid, op: Q.Op)
    requires IsRun(capacity, r) && i < j < |r| && (op == Q.Deliver || op == Q.Retrieve)
    requires (forall k: nat | i <= k < j :: HoldsAt(r, k, t)) && !HoldsAt(r, j, t)
    requires HoldsAt(r, i, t) && r[i].pcs[t] == if op == Q.Deliver then DeliverLocked else RetrieveLocked
    ensures t in r[j].pcs && Completes(capacity, r[i].sh.l, op, r[j].sh.l, r[j].pcs[t]) && r[j].sh.mutex == None
  {
    var m := j - 1;
    HolderProgress(capacity, r, i, m, t, op);
    RunInv(capacity, r, m);
    var u :| Step(capacity, r[m], r[j], u);
    if u == t {
      HolderMoves(capacity, r[m], r[j], t, r[i].sh.l, op);
    } else {
      OthersKeepLedger(capacity, r[m], r[j], t, u);
    }
  }

  lemma NotifyLeavesToken(capacity: nat, r: seq<Sys>, k: nat, m: nat, t: Tid)
    requires IsRun(capacity, r) && m == k + 1 && m < |r| && t in r[k].pcs && t in r[m].pcs
    requires r[k].pcs[t] == Added && r[m].pcs[t] != Added
    ensures r[m].pcs[t] == Notified && r[m].sh.notify
  {
    var u :| Step(capacity, r[k], r[m], u);
  }

  // ----- The calls do not block -----

  ghost predicate CanGoOn(capacity: nat, s: Sys, t: Tid) {
    exists s' :: Step(capacity, s, s', t)
  }

  /** Who has the mutex can go on, and who has not can get it while it is free; a waiting consumer needs a token. */
  lemma CallGoesOn(capacity: nat, s: Sys, t: Tid)
    requires t in s.pcs && (HoldsLock(s.pcs[t]) || s.sh.mutex == None) && (s.pcs[t] == Waiting ==> s.sh.notify)
    ensures CanGoOn(capacity, s, t)
  {
    var h, pc := s.sh, s.pcs[t];
    var h', pc' := h, pc;
    match pc {
      case Idle => h', pc' := h.(mutex := Some(t)), DeliverLocked;
      case DeliverLocked => h', pc' := h.(l := Q.Step(h.l, capacity, Q.Deliver)), Added;
      case Added => h', pc' := h.(notify := true), Notified;
      case Notified => h', pc' := h.(mutex := None), Idle;
      case Waiting => h', pc' := h.(notify := false), Draining;
      case Draining => h', pc' := h.(mutex := Some(t)), RetrieveLocked;
      case RetrieveLocked => h', pc' := h.(l := Q.Step(h.l, capacity, Q.Retrieve)), Retrieved(h.l.items != []);
      case Retrieved(ok) => h', pc' := h.(mutex := None), if ok then Draining else Waiting;
    }
    assert Step(capacity, s, Sys(h', s.pcs[t := pc']), t);
  }

  /** While items are queued, the mutex is free and there is a consumer, some consumer can go on. */
  lemma QueueIsServed(capacity: nat, r: seq<Sys>, i: nat, c: Tid)
    requires IsRun(capacity, r) && i < |r| && r[i].sh.mutex == None && r[i].sh.l.items != []
    requires c in r[i].pcs && r[i].pcs[c] in {Waiting, Draining}
    ensures exists t :: t in r[i].pcs && r[i].pcs[t] in {Waiting, Draining} && CanGoOn(capacity, r[i], t)
  {
    NoNotificationLost(capacity, r, i);
    if r[i].sh.notify {
      CallGoesOn(capacity, r[i], c);
    } else {
      var t :| t in r[i].pcs && r[i].pcs[t] == Draining;
      CallGoesOn(capacity, r[i], t);
    }
  }
}
