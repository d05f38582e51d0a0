/** What one call of the lifecycle guard is answered, in any run of any number of callers.

    A call is followed from the state in which it is made to the state in which it has returned. */
module LifecycleCalls {
  import opened Wrappers
  import opened StartStopOnce

  /** A run of the guard as it is seen inside a larger system: it begins with no call under way, and between its steps
      nothing of it changes. */
  ghost predicate IsTrace(r: seq<Sys>) {
    && |r| > 0 && Inv(r[0]) && (forall t | t in r[0].pcs :: r[0].pcs[t] == Idle)
    && forall i, j :: 0 <= i && j == i + 1 && j < |r| ==> r[j] == r[i] || Next(r[i], r[j])
  }

  lemma RunIsTrace(r: seq<Sys>)
    requires IsRun(r)
    ensures IsTrace(r)
  {
    RunInv(r, 0);
  }

  lemma {:induction false} TraceInv(r: seq<Sys>, i: nat)
    requires IsTrace(r) && i < |r|
    ensures Inv(r[i])
  {
    if i == 0 {
    } else {
      var m := i - 1;
      TraceInv(r, m);
      if r[i] != r[m] {
        var t :| Step(r[m], r[i], t);
        StepKeepsInv(r[m], r[i], t);
      }
    }
  }

  /** IfStarted and IfNotStopped. */
  datatype Kind = WhenStarted | WhenNotStopped

  /** What the state has to be for the callback to run. */
  predicate Opens(kind: Kind, state: State) {
    match kind
    case WhenStarted => state == Started
    case WhenNotStopped => state != Stopped
  }

  function AtLock(kind: Kind): Pc {
    if kind.WhenStarted? then IfStartedAtLock else IfNotStoppedAtLock
  }

  function AtLoad(kind: Kind): Pc {
    if kind.WhenStarted? then IfStartedAtLoad else IfNotStoppedAtLoad
  }

  function InBody(kind: Kind): Pc {
    if kind.WhenStarted? then IfStartedInBody else IfNotStoppedInBody
  }

  predicate InGuarded(kind: Kind, pc: Pc) {
    pc == AtLock(kind) || pc == AtLoad(kind) || pc == InBody(kind) || pc.GuardAtUnlock?
  }

  /** The callback is running, or the reply is that it ran. */
  predicate Ran(kind: Kind, pc: Pc) {
    pc == InBody(kind) || pc == GuardAtUnlock(true) || pc == Returned(Guarded(true))
  }

  /** On the way out, or out: the reply is fixed. */
  predicate Decided(kind: Kind, pc: Pc) {
    pc == InBody(kind) || pc.GuardAtUnlock? || (pc.Returned? && pc.outcome.Guarded?)
  }

  // ----- One step of the caller, or of another -----

  /** Where a guarded call goes from a program point of its own. */
  function Advance(kind: Kind, state: State, pc: Pc): Pc {
    if pc == AtLock(kind) then AtLoad(kind)
    else if pc == AtLoad(kind) then if Opens(kind, state) then InBody(kind) else GuardAtUnlock(false)
    else if pc.GuardAtUnlock? then Returned(Guarded(pc.ran))
    else GuardAtUnlock(true)
  }

  lemma GuardedStep(t: Tid, h: Shared, pc: Pc, h': Shared, pc': Pc, kind: Kind)
    requires Local(t, h, pc, h', pc') == true && InGuarded(kind, pc)
    ensures pc' == Advance(kind, h.state, pc) && h'.state == h.state
  {
    assert GuardStep(t, h, pc, h', pc');
  }

  /** While a reader holds the lock, the only change of state is the one that begins a start. */
  lemma ReaderPinsState(s: Sys, s': Sys, t: Tid, u: Tid, kind: Kind)
    requires Inv(s) == true && Step(s, s', t) && u in s.sh.readers
    ensures Opens(kind, s'.sh.state) == Opens(kind, s.sh.state)
  {
    StepMoves(s, s', t);
    assert !HoldsWrite(s.pcs[t]);
  }

  /** One step of a run, seen by a caller in a guarded call. */
  predicate SeenStep(kind: Kind, state: State, pc: Pc, state': State, pc': Pc) {
    && (pc' == pc || pc' == Advance(kind, state, pc))
    && (HoldsRead(pc) ==> Opens(kind, state') == Opens(kind, state))
  }

  lemma NextSeen(r: seq<Sys>, k: nat, m: nat, u: Tid, kind: Kind)
    requires IsTrace(r) && m == k + 1 && m < |r| && u in r[k].pcs && InGuarded(kind, r[k].pcs[u])
    ensures u in r[m].pcs && (SeenStep(kind, r[k].sh.state, r[k].pcs[u], r[m].sh.state, r[m].pcs[u]) == true)
  {
    TraceInv(r, k);
    if r[m] != r[k] {
      var t :| Step(r[k], r[m], t);
      if t == u {
        GuardedStep(u, r[k].sh, r[k].pcs[u], r[m].sh, r[m].pcs[u], kind);
      } else if HoldsRead(r[k].pcs[u]) {
        ReaderPinsState(r[k], r[m], t, u, kind);
      }
    }
  }

  // ----- One guarded call -----

  ghost predicate OnGuardedCall(r: seq<Sys>, i: nat, j: nat, u: Tid, kind: Kind, k: nat) {
    && k < |r| && u in r[k].pcs
    && (k == i ==> r[k].pcs[u] == AtLock(kind))
    && (k < j ==> InGuarded(kind, r[k].pcs[u]))
  }

  /** One call of IfStarted or IfNotStopped, from its wait for the read lock at r[i] to r[j]. */
  ghost predicate IsGuardedCall(r: seq<Sys>, i: nat, j: nat, u: Tid, kind: Kind) {
    i <= j && forall k: nat | i <= k <= j :: OnGuardedCall(r, i, j, u, kind, k)
  }

  lemma GuardedUpTo(r: seq<Sys>, i: nat, j: nat, u: Tid, kind: Kind)
    requires IsGuardedCall(r, i, j, u, kind) && i < j
    ensures IsGuardedCall(r, i, j - 1, u, kind)
    ensures OnGuardedCall(r, i, j, u, kind, j - 1) && OnGuardedCall(r, i, j, u, kind, j)
  {
    var m := j - 1;
    forall k: nat | i <= k <= m
      ensures OnGuardedCall(r, i, m, u, kind, k)
    {
      assert OnGuardedCall(r, i, j, u, kind, k);
    }
  }

  ghost predicate IsAt(r: seq<Sys>, k: nat, u: Tid, pc: Pc) {
    k < |r| && u in r[k].pcs && r[k].pcs[u] == pc
  }

  /** The callback of the call runs at some point from r[i] to r[j]. */
  ghost predicate RanBetween(r: seq<Sys>, i: nat, j: nat, u: Tid, kind: Kind) {
    exists k: nat | i <= k <= j :: IsAt(r, k, u, InBody(kind))
  }

  lemma RanOneMore(r: seq<Sys>, i: nat, j: nat, u: Tid, kind: Kind)
    requires i < j
    ensures RanBetween(r, i, j, u, kind) == (RanBetween(r, i, j - 1, u, kind) || IsAt(r, j, u, InBody(kind)))
  {
    if RanBetween(r, i, j, u, kind) {
      var k: nat :| i <= k <= j && IsAt(r, k, u, InBody(kind));
      assert k == j || k <= j - 1;
    }
  }

  lemma RanStep(kind: Kind, state: State, pc: Pc, state': State, pc': Pc)
    requires InGuarded(kind, pc) && SeenStep(kind, state, pc, state', pc') == true
    ensures Ran(kind, pc') == (Ran(kind, pc) || pc' == InBody(kind))
  {
  }

  lemma CallBegins(r: seq<Sys>, i: nat, u: Tid, kind: Kind)
    requires IsGuardedCall(r, i, i, u, kind)
    ensures IsAt(r, i, u, AtLock(kind)) && !RanBetween(r, i, i, u, kind)
  {
    assert OnGuardedCall(r, i, i, u, kind, i);
  }

  lemma {:induction false} RanIff(r: seq<Sys>, i: nat, j: nat, u: Tid, kind: Kind)
    requires IsTrace(r) && IsGuardedCall(r, i, j, u, kind)
    ensures j < |r| && u in r[j].pcs && Ran(kind, r[j].pcs[u]) == RanBetween(r, i, j, u, kind)
    decreases j - i
  {
    if i == j {
      CallBegins(r, i, u, kind);
    } else {
      GuardedUpTo(r, i, j, u, kind);
      RanIff(r, i, j - 1, u, kind);
      NextSeen(r, j - 1, j, u, kind);
      RanStep(kind, r[j - 1].sh.state, r[j - 1].pcs[u], r[j].sh.state, r[j].pcs[u]);
      RanOneMore(r, i, j, u, kind);
    }
  }

  /** Once decided, the callback runs exactly if the state opens it, for as long as the lock is held. */
  predicate DecidedRight(kind: Kind, state: State, pc: Pc) {
    HoldsRead(pc) && Decided(kind, pc) ==> Ran(kind, pc) == Opens(kind, state)
  }

  lemma DecidedStep(kind: Kind, state: State, pc: Pc, state': State, pc': Pc)
    requires InGuarded(kind, pc) && SeenStep(kind, state, pc, state', pc') == true
    requires DecidedRight(kind, state, pc) == true
    ensures DecidedRight(kind, state', pc')
  {
  }

  lemma {:induction false} CallDecidesRight(r: seq<Sys>, i: nat, j: nat, u: Tid, kind: Kind)
    requires IsTrace(r) && IsGuardedCall(r, i, j, u, kind)
    ensures j < |r| && u in r[j].pcs && DecidedRight(kind, r[j].sh.state, r[j].pcs[u])
    decreases j - i
  {
    if i == j {
      CallBegins(r, i, u, kind);
    } else {
      GuardedUpTo(r, i, j, u, kind);
      CallDecidesRight(r, i, j - 1, u, kind);
      NextSeen(r, j - 1, j, u, kind);
      DecidedStep(kind, r[j - 1].sh.state, r[j - 1].pcs[u], r[j].sh.state, r[j].pcs[u]);
    }
  }

  /** From a state in which the call holds the lock on: what that state opens is what the call does. */
  predicate Stands(kind: Kind, open: bool, state: State, pc: Pc) {
    && (HoldsRead(pc) ==> Opens(kind, state) == open)
    && (Decided(kind, pc) ==> Ran(kind, pc) == open)
    && (pc == AtLoad(kind) || Decided(kind, pc))
  }

  lemma StandsStep(kind: Kind, open: bool, state: State, pc: Pc, state': State, pc': Pc)
    requires InGuarded(kind, pc) && SeenStep(kind, state, pc, state', pc') == true
    requires Stands(kind, open, state, pc) == true
    ensures Stands(kind, open, state', pc') == true
  {
    if pc' == pc {
    } else if pc == AtLoad(kind) {
      assert Opens(kind, state) == open;
    } else {
    }
  }

  lemma VerdictNext(r: seq<Sys>, k: nat, m: nat, u: Tid, kind: Kind, open: bool)
    requires IsTrace(r) && m == k + 1 && m < |r| && u in r[k].pcs && InGuarded(kind, r[k].pcs[u])
    requires Stands(kind, open, r[k].sh.state, r[k].pcs[u]) == true
    ensures u in r[m].pcs && (Stands(kind, open, r[m].sh.state, r[m].pcs[u]) == true)
  {
    NextSeen(r, k, m, u, kind);
    StandsStep(kind, open, r[k].sh.state, r[k].pcs[u], r[m].sh.state, r[m].pcs[u]);
  }

  /** A guarded call returns nothing but whether the callback ran. */
  lemma {:induction false} GuardedReturns(r: seq<Sys>, i: nat, j: nat, u: Tid, kind: Kind)
    requires IsTrace(r) && IsGuardedCall(r, i, j, u, kind)
    ensures j < |r| && u in r[j].pcs
    ensures InGuarded(kind, r[j].pcs[u]) || (r[j].pcs[u].Returned? && r[j].pcs[u].outcome.Guarded?)
  {
    if i == j {
      CallBegins(r, i, u, kind);
    } else {
      GuardedUpTo(r, i, j, u, kind);
      NextSeen(r, j - 1, j, u, kind);
    }
  }

  /** The caller is one of those that hold the read lock. */
  ghost predicate Reads(r: seq<Sys>, k: nat, u: Tid) {
    k < |r| && u in r[k].sh.readers
  }

  ghost predicate GuardedAt(r: seq<Sys>, k: nat, u: Tid, kind: Kind) {
    k < |r| && u in r[k].pcs && InGuarded(kind, r[k].pcs[u])
  }

  lemma {:induction false} VerdictStands(r: seq<Sys>, k: nat, j: nat, u: Tid, kind: Kind, open: bool)
    requires IsTrace(r) && k <= j < |r| && u in r[k].pcs
    requires Stands(kind, open, r[k].sh.state, r[k].pcs[u]) == true
    requires forall m: nat | k <= m < j :: GuardedAt(r, m, u, kind)
    ensures u in r[j].pcs && (Stands(kind, open, r[j].sh.state, r[j].pcs[u]) == true)
    decreases j - k
  {
    if k == j {
    } else {
      assert GuardedAt(r, k, u, kind);
      VerdictNext(r, k, k + 1, u, kind, open);
      VerdictStands(r, k + 1, j, u, kind, open);
    }
  }

  /** In a state in which the call holds the lock, what the state opens is what the call is about to do, or has done. */
  lemma VerdictAt(r: seq<Sys>, i: nat, k: nat, u: Tid, kind: Kind)
    requires IsTrace(r) && IsGuardedCall(r, i, k, u, kind) && Reads(r, k, u)
    ensures u in r[k].pcs && (Stands(kind, Opens(kind, r[k].sh.state), r[k].sh.state, r[k].pcs[u]) == true)
  {
    TraceInv(r, k);
    GuardedReturns(r, i, k, u, kind);
    CallDecidesRight(r, i, k, u, kind);
  }

  ghost predicate ReadBetween(r: seq<Sys>, i: nat, j: nat, u: Tid) {
    exists k: nat | i <= k <= j :: Reads(r, k, u)
  }

  lemma {:induction false} LockWasHeld(r: seq<Sys>, i: nat, j: nat, u: Tid, kind: Kind)
    requires IsTrace(r) && IsGuardedCall(r, i, j, u, kind)
    ensures IsAt(r, j, u, AtLock(kind)) || ReadBetween(r, i, j, u)
    decreases j - i
  {
    if i == j {
      CallBegins(r, i, u, kind);
    } else {
      GuardedUpTo(r, i, j, u, kind);
      LockWasHeld(r, i, j - 1, u, kind);
      NextSeen(r, j - 1, j, u, kind);
      if IsAt(r, j - 1, u, AtLock(kind)) && r[j].pcs[u] == AtLoad(kind) {
        TraceInv(r, j);
        assert Reads(r, j, u);
      } else if ReadBetween(r, i, j - 1, u) {
        var k: nat :| i <= k <= j - 1 && Reads(r, k, u);
        assert Reads(r, k, u) && k <= j;
      }
    }
  }

  lemma CallPrefix(r: seq<Sys>, i: nat, k: nat, j: nat, u: Tid, kind: Kind)
    requires i <= k <= j && IsGuardedCall(r, i, j, u, kind)
    ensures IsGuardedCall(r, i, k, u, kind)
    ensures forall m: nat | k <= m < j :: GuardedAt(r, m, u, kind)
  {
    forall m: nat | i <= m <= j
      ensures m <= k ==> OnGuardedCall(r, i, k, u, kind, m)
      ensures m < j ==> GuardedAt(r, m, u, kind)
    {
      assert OnGuardedCall(r, i, j, u, kind, m);
    }
  }

  lemma ReadAtDecides(r: seq<Sys>, i: nat, k: nat, j: nat, u: Tid, kind: Kind)
    requires IsTrace(r) && i <= k <= j < |r| && IsGuardedCall(r, i, j, u, kind) && Reads(r, k, u)
    ensures u in r[j].pcs && (Stands(kind, Opens(kind, r[k].sh.state), r[j].sh.state, r[j].pcs[u]) == true)
  {
    CallPrefix(r, i, k, j, u, kind);
    VerdictAt(r, i, k, u, kind);
    VerdictStands(r, k, j, u, kind, Opens(kind, r[k].sh.state));
  }

  /** IfStarted and IfNotStopped answer whether their callback ran; it ran exactly if the state opened it while the call
      held the read lock, which each call that returns did, and throughout which the answer does not change. */
  lemma GuardedIff(r: seq<Sys>, i: nat, j: nat, u: Tid, kind: Kind, ran: bool)
    requires IsTrace(r) && IsGuardedCall(r, i, j, u, kind) && IsAt(r, j, u, Returned(Guarded(ran)))
    ensures ran == RanBetween(r, i, j, u, kind)
    ensures ReadBetween(r, i, j, u)
    ensures forall k: nat | i <= k <= j && Reads(r, k, u) :: Opens(kind, r[k].sh.state) == ran
  {
    RanIff(r, i, j, u, kind);
    LockWasHeld(r, i, j, u, kind);
    forall k: nat | i <= k <= j && Reads(r, k, u)
      ensures Opens(kind, r[k].sh.state) == ran
    {
      ReadAtDecides(r, i, k, j, u, kind);
    }
  }

  /** A call throughout which the state is open runs the callback and says so; one throughout which it never is does
      neither. */
  lemma SteadyGuard(r: seq<Sys>, i: nat, j: nat, u: Tid, kind: Kind, open: bool)
    requires IsTrace(r) && IsGuardedCall(r, i, j, u, kind)
    requires j < |r| && u in r[j].pcs && r[j].pcs[u].Returned?
    requires forall k | i <= k <= j :: Opens(kind, r[k].sh.state) == open
    ensures r[j].pcs[u] == Returned(Guarded(open)) && RanBetween(r, i, j, u, kind) == open
  {
    GuardedReturns(r, i, j, u, kind);
    var ran := r[j].pcs[u].outcome.ran;
    GuardedIff(r, i, j, u, kind, ran);
    var k: nat :| i <= k <= j && Reads(r, k, u);
    assert Opens(kind, r[k].sh.state) == ran;
  }

  // ----- One call of StartOnce or StopOnce -----

  /** The one look at the state that a reply of StartOnce or StopOnce comes from. */
  predicate Decides(pc: Pc, state: State, reply: Outcome) {
    match reply
    case StartReturned(_) => pc == StartAtCas && state == Unstarted
    case AlreadyStarted(seen) => pc == StartAtReport && state == seen && seen != Unstarted
    case StopReturned(_) => pc == StopAtCas && state == Started
    case AlreadyStopped => pc == StopAtLoad && state == Stopped
    case CannotStopUnstarted => pc == StopAtLoad && state == Unstarted
    case CannotStop(seen) => pc == StopAtLoad && state == seen && seen != Stopped && seen != Unstarted
    case Guarded(_) => false
  }

  /** After that look: all that is left to do for this reply, and the reply. */
  predicate Carries(pc: Pc, reply: Outcome) {
    match reply
    case StartReturned(ok) =>
      || pc == StartAtLock || pc == StartInBody || pc == StartAtPublish(ok) || pc == StartAtUnlock(ok)
      || pc == Returned(reply)
    case AlreadyStarted(_) => pc == Returned(reply)
    case StopReturned(ok) =>
      pc == StopInBody || pc == StopAtPublish(ok) || pc == StopAtUnlock(reply) || pc == Returned(reply)
    case _ => pc == StopAtUnlock(reply) || pc == Returned(reply)
  }

  lemma StartCarries(t: Tid, h: Shared, pc: Pc, h': Shared, pc': Pc, reply: Outcome)
    requires StartStep(t, h, pc, h', pc') == true && Fits(pc, h.state) == true && Carries(pc', reply) && !reply.Guarded?
    ensures (Carries(pc, reply) || Decides(pc, h.state, reply)) == true
  {
    if reply.StartReturned? {
    } else if reply.AlreadyStarted? {
    }
  }

  lemma StopCarries(t: Tid, h: Shared, pc: Pc, h': Shared, pc': Pc, reply: Outcome)
    requires StopStep(t, h, pc, h', pc') == true && Fits(pc, h.state) == true && Carries(pc', reply) && !reply.Guarded?
    ensures (Carries(pc, reply) || Decides(pc, h.state, reply)) == true
  {
  }

  lemma OthersCarryNothing(t: Tid, h: Shared, pc: Pc, h': Shared, pc': Pc, reply: Outcome)
    requires (GuardStep(t, h, pc, h', pc') || CallStep(h, pc, h', pc')) && !reply.Guarded?
    ensures !Carries(pc', reply)
  {
  }

  lemma LocalCarries(t: Tid, h: Shared, pc: Pc, h': Shared, pc': Pc, reply: Outcome)
    requires Local(t, h, pc, h', pc') && Fits(pc, h.state) && Carries(pc', reply) && !reply.Guarded?
    ensures Carries(pc, reply) || Decides(pc, h.state, reply)
  {
    if StartStep(t, h, pc, h', pc') {
      StartCarries(t, h, pc, h', pc', reply);
    } else if StopStep(t, h, pc, h', pc') {
      StopCarries(t, h, pc, h', pc', reply);
    } else {
      OthersCarryNothing(t, h, pc, h', pc', reply);
    }
  }

  ghost predicate DecidesAt(r: seq<Sys>, k: nat, u: Tid, reply: Outcome) {
    k < |r| && u in r[k].pcs && Decides(r[k].pcs[u], r[k].sh.state, reply)
  }

  ghost predicate CarriesAt(r: seq<Sys>, k: nat, u: Tid, reply: Outcome) {
    k < |r| && u in r[k].pcs && Carries(r[k].pcs[u], reply)
  }

  lemma CarriedFrom(r: seq<Sys>, k: nat, j: nat, u: Tid, reply: Outcome)
    requires IsTrace(r) && j == k + 1 && CarriesAt(r, j, u, reply) && !reply.Guarded?
    ensures CarriesAt(r, k, u, reply) || DecidesAt(r, k, u, reply)
  {
    TraceInv(r, k);
    if r[j] != r[k] {
      var t :| Step(r[k], r[j], t);
      if t == u {
        LocalCarries(u, r[k].sh, r[k].pcs[u], r[j].sh, r[j].pcs[u], reply);
      }
    }
  }

  /** The reply that the caller carries at r[j] was decided by its look at r[k], and carried ever since. */
  ghost predicate Origin(r: seq<Sys>, k: nat, j: nat, u: Tid, reply: Outcome) {
    k < j && DecidesAt(r, k, u, reply) && forall m: nat | k < m <= j :: CarriesAt(r, m, u, reply)
  }

  lemma CarriedOn(r: seq<Sys>, k: nat, m: nat, j: nat, u: Tid, reply: Outcome)
    requires j == m + 1 && Origin(r, k, m, u, reply) && CarriesAt(r, j, u, reply) == true
    ensures Origin(r, k, j, u, reply)
  {
  }

  lemma {:induction false} CarriedSince(r: seq<Sys>, j: nat, u: Tid, reply: Outcome) returns (k: nat)
    requires IsTrace(r) && CarriesAt(r, j, u, reply) == true && !reply.Guarded?
    ensures Origin(r, k, j, u, reply) == true
  {
    if j == 0 {
      assert false;
    } else {
      var m := j - 1;
      CarriedFrom(r, m, j, u, reply);
      if DecidesAt(r, m, u, reply) {
        k := m;
      } else {
        k := CarriedSince(r, m, u, reply);
        CarriedOn(r, k, m, j, u, reply);
      }
    }
  }

  /** Every reply of StartOnce and StopOnce is that of the state at one look of the same call: the callback ran exactly
      if the call found the state Unstarted, respectively Started, and any other reply names the state it found. */
  lemma ReplyIsOfOneLook(r: seq<Sys>, j: nat, u: Tid, reply: Outcome)
    requires IsTrace(r) && IsAt(r, j, u, Returned(reply)) && !reply.Guarded?
    ensures exists k: nat :: Origin(r, k, j, u, reply)
  {
    var k := CarriedSince(r, j, u, reply);
  }

  // ----- What can happen -----

  predicate IsEntry(pc: Pc) {
    pc == StartAtCas || pc == StopAtLock || pc == IfStartedAtLock || pc == IfNotStoppedAtLock
  }

  /** A caller that is in no call can make any of the four. */
  lemma AnyoneCanCall(s: Sys, t: Tid, entry: Pc)
    requires t in s.pcs && (s.pcs[t].Idle? || s.pcs[t].Returned?) && IsEntry(entry)
    ensures Next(s, s.(pcs := s.pcs[t := entry]))
  {
    assert Step(s, s.(pcs := s.pcs[t := entry]), t);
  }

  /** The callbacks of a start and of a stop can end either way. */
  lemma CallbackCanEnd(s: Sys, t: Tid, ok: bool)
    requires t in s.pcs && (s.pcs[t].StartInBody? || s.pcs[t].StopInBody?)
    ensures if s.pcs[t].StartInBody?
            then Next(s, Sys(s.sh.(log := s.sh.log + [StartEnded(t, ok)]), s.pcs[t := StartAtPublish(ok)]))
            else Next(s, Sys(s.sh.(log := s.sh.log + [StopEnded(t, ok)]), s.pcs[t := StopAtPublish(ok)]))
  {
    if s.pcs[t].StartInBody? {
      assert Step(s, Sys(s.sh.(log := s.sh.log + [StartEnded(t, ok)]), s.pcs[t := StartAtPublish(ok)]), t);
    } else {
      assert Step(s, Sys(s.sh.(log := s.sh.log + [StopEnded(t, ok)]), s.pcs[t := StopAtPublish(ok)]), t);
    }
  }
}
