/** The lifecycle guard of core/utils/utils.go, as interleaved atomic steps of any number of callers.

    Each method is cut where another goroutine can run: at every compare-and-swap, atomic load, lock,
    unlock and callback boundary. `state` is changed by compare-and-swap outside the lock on start and
    inside the lock on stop; the callbacks themselves are only known to take time and to return. */
module StartStopOnce {
  import opened Wrappers

  type Tid = int

  datatype State = Unstarted | Started | Starting | StartFailed | Stopping | Stopped | StopFailed

  /** What a call returned. `Returned(ok)` carries whether the callback returned a nil error. */
  datatype Outcome =
    | StartReturned(ok: bool)
    | AlreadyStarted(seen: State)
    | StopReturned(ok: bool)
    | AlreadyStopped
    | CannotStopUnstarted
    | CannotStop(seen: State)
    | Guarded(ran: bool)

  datatype Pc =
    | Idle
    | StartAtCas | StartAtReport | StartAtLock | StartInBody | StartAtPublish(ok: bool) | StartAtUnlock(ok: bool)
    | StopAtLock | StopAtCas | StopAtLoad | StopInBody | StopAtPublish(ok: bool) | StopAtUnlock(result: Outcome)
    | IfStartedAtLock | IfStartedAtLoad | IfStartedInBody
    | IfNotStoppedAtLock | IfNotStoppedAtLoad | IfNotStoppedInBody
    | GuardAtUnlock(ran: bool)
    | Returned(outcome: Outcome)
    | Panicked

  datatype Event = StartBegan(t: Tid) | StartEnded(t: Tid, ok: bool) | StopBegan(t: Tid) | StopEnded(t: Tid, ok: bool)

  /** What all callers share: the atomic, the read-write lock, and the record of callback boundaries. */
  datatype Shared = Shared(state: State, writer: Option<Tid>, readers: set<Tid>, log: seq<Event>)

  datatype Sys = Sys(sh: Shared, pcs: map<Tid, Pc>)

  // ----- Steps of one caller -----

  predicate Free(h: Shared) {
    h.writer.None? && h.readers == {}
  }

  function RejectedStop(state: State): Outcome {
    match state
    case Stopped => AlreadyStopped
    case Unstarted => CannotStopUnstarted
    case _ => CannotStop(state)
  }

  predicate StartStep(t: Tid, h: Shared, pc: Pc, h': Shared, pc': Pc) {
    match pc
    case StartAtCas =>
      if h.state == Unstarted then pc' == StartAtLock && h' == h.(state := Starting)
      else pc' == StartAtReport && h' == h
    case StartAtReport =>
      pc' == Returned(AlreadyStarted(h.state)) && h' == h
    case StartAtLock =>
      Free(h) && pc' == StartInBody && h' == h.(writer := Some(t), log := h.log + [StartBegan(t)])
    case StartInBody =>
      pc'.StartAtPublish? && h' == h.(log := h.log + [StartEnded(t, pc'.ok)])
    case StartAtPublish(ok) =>
      if h.state == Starting
      then pc' == StartAtUnlock(ok) && h' == h.(state := if ok then Started else StartFailed)
      else pc' == Panicked && h' == h
    case StartAtUnlock(ok) =>
      pc' == Returned(StartReturned(ok)) && h' == h.(writer := None)
    case _ => false
  }

  predicate StopStep(t: Tid, h: Shared, pc: Pc, h': Shared, pc': Pc) {
    match pc
    case StopAtLock =>
      Free(h) && pc' == StopAtCas && h' == h.(writer := Some(t))
    case StopAtCas =>
      if h.state == Started then pc' == StopInBody && h' == h.(state := Stopping, log := h.log + [StopBegan(t)])
      else pc' == StopAtLoad && h' == h
    case StopAtLoad =>
      pc' == StopAtUnlock(RejectedStop(h.state)) && h' == h
    case StopInBody =>
      pc'.StopAtPublish? && h' == h.(log := h.log + [StopEnded(t, pc'.ok)])
    case StopAtPublish(ok) =>
      if h.state == Stopping
      then pc' == StopAtUnlock(StopReturned(ok)) && h' == h.(state := if ok then Stopped else StopFailed)
      else pc' == Panicked && h' == h
    case StopAtUnlock(result) =>
      pc' == Returned(result) && h' == h.(writer := None)
    case _ => false
  }

  predicate GuardStep(t: Tid, h: Shared, pc: Pc, h': Shared, pc': Pc) {
    match pc
    case IfStartedAtLock =>
      h.writer.None? && pc' == IfStartedAtLoad && h' == h.(readers := h.readers + {t})
    case IfStartedAtLoad =>
      pc' == (if h.state == Started then IfStartedInBody else GuardAtUnlock(false)) && h' == h
    case IfStartedInBody =>
      pc' == GuardAtUnlock(true) && h' == h
    case IfNotStoppedAtLock =>
      h.writer.None? && pc' == IfNotStoppedAtLoad && h' == h.(readers := h.readers + {t})
    case IfNotStoppedAtLoad =>
      pc' == (if h.state == Stopped then GuardAtUnlock(false) else IfNotStoppedInBody) && h' == h
    case IfNotStoppedInBody =>
      pc' == GuardAtUnlock(true) && h' == h
    case GuardAtUnlock(ran) =>
      pc' == Returned(Guarded(ran)) && h' == h.(readers := h.readers - {t})
    case _ => false
  }

  predicate CallStep(h: Shared, pc: Pc, h': Shared, pc': Pc) {
    (pc.Idle? || pc.Returned?) && h' == h &&
    (pc'.StartAtCas? || pc'.StopAtLock? || pc'.IfStartedAtLock? || pc'.IfNotStoppedAtLock?)
  }

  predicate Local(t: Tid, h: Shared, pc: Pc, h': Shared, pc': Pc) {
    || CallStep(h, pc, h', pc')
    || StartStep(t, h, pc, h', pc')
    || StopStep(t, h, pc, h', pc')
    || GuardStep(t, h, pc, h', pc')
  }

  // ----- Runs -----

  ghost predicate Step(s: Sys, s': Sys, t: Tid) {
    && t in s.pcs && t in s'.pcs && s'.pcs == s.pcs[t := s'.pcs[t]]
    && Local(t, s.sh, s.pcs[t], s'.sh, s'.pcs[t])
  }

  ghost predicate Next(s: Sys, s': Sys) {
    exists t :: Step(s, s', t)
  }

  ghost predicate Init(s: Sys) {
    s.sh == Shared(Unstarted, None, {}, []) && forall t | t in s.pcs :: s.pcs[t] == Idle
  }

  /** A run: any number of callers, scheduled in any order. */
  ghost predicate IsRun(r: seq<Sys>) {
    |r| > 0 && Init(r[0]) && forall i, j :: 0 <= i && j == i + 1 && j < |r| ==> Next(r[i], r[j])
  }

  // ----- Inductive invariant -----

  predicate HoldsWrite(pc: Pc) {
    pc.StartInBody? || pc.StartAtPublish? || pc.StartAtUnlock? ||
    pc.StopAtCas? || pc.StopAtLoad? || pc.StopInBody? || pc.StopAtPublish? || pc.StopAtUnlock?
  }

  predicate HoldsRead(pc: Pc) {
    pc.IfStartedAtLoad? || pc.IfStartedInBody? || pc.IfNotStoppedAtLoad? || pc.IfNotStoppedInBody? || pc.GuardAtUnlock?
  }

  /** Between the compare-and-swap that begins the start and the one that ends it. */
  predicate IsStarter(pc: Pc) {
    pc.StartAtLock? || pc.StartInBody? || pc.StartAtPublish?
  }

  predicate IsStopper(pc: Pc) {
    pc.StopInBody? || pc.StopAtPublish?
  }

  ghost predicate LockInv(s: Sys) {
    && (forall t :: s.sh.writer == Some(t) <==> t in s.pcs && HoldsWrite(s.pcs[t]))
    && (forall t :: t in s.sh.readers <==> t in s.pcs && HoldsRead(s.pcs[t]))
    && (s.sh.writer.Some? ==> s.sh.readers == {})
  }

  /** The states each program point can be at. */
  predicate Fits(pc: Pc, state: State) {
    match pc
    case StartAtReport => state != Unstarted
    case StartAtLock | StartInBody | StartAtPublish(_) => state == Starting
    case StartAtUnlock(ok) => state == if ok then Started else StartFailed
    case StopAtCas => state != Stopping
    case StopAtLoad => state != Started && state != Stopping
    case StopInBody | StopAtPublish(_) => state == Stopping
    case StopAtUnlock(result) => OfStop(result) && OutcomeFits(result, state) && state != Stopping
    case IfStartedInBody => state == Started
    case IfNotStoppedAtLoad => state != Stopping
    case IfNotStoppedInBody => state != Stopping && state != Stopped
    case Returned(outcome) => OutcomeFits(outcome, state)
    case Panicked => false
    case _ => true
  }

  predicate OfStop(result: Outcome) {
    result.StopReturned? || result.AlreadyStopped? || result.CannotStopUnstarted? || result.CannotStop?
  }

  /** What a result still says about the state, however much later it is looked at. */
  predicate OutcomeFits(outcome: Outcome, state: State) {
    match outcome
    case StartReturned(ok) => if ok then Before(Started, state) else state == StartFailed
    case AlreadyStarted(seen) => seen != Unstarted && Before(seen, state)
    case StopReturned(ok) => state == if ok then Stopped else StopFailed
    case AlreadyStopped => state == Stopped
    case CannotStopUnstarted => true
    case CannotStop(seen) => seen != Started && seen != Stopping && Before(seen, state)
    case Guarded(_) => true
  }

  /** The order in which the seven states can follow each other. */
  predicate Before(a: State, b: State) {
    a == b ||
    match a
    case Unstarted => true
    case Starting => b != Unstarted
    case Started => b == Stopping || b == Stopped || b == StopFailed
    case Stopping => b == Stopped || b == StopFailed
    case StartFailed => false
    case Stopped => false
    case StopFailed => false
  }

  /** The events of a start in progress, by the starter's program point. */
  function StarterLog(pc: Pc, t: Tid): seq<Event> {
    match pc
    case StartInBody => [StartBegan(t)]
    case StartAtPublish(ok) => [StartBegan(t), StartEnded(t, ok)]
    case _ => []
  }

  function StopperLog(pc: Pc, a: Tid, t: Tid): seq<Event> {
    match pc
    case StopAtPublish(ok) => FullLog(a, t, ok)
    case _ => [StartBegan(a), StartEnded(a, true), StopBegan(t)]
  }

  function FullLog(a: Tid, t: Tid, ok: bool): seq<Event> {
    [StartBegan(a), StartEnded(a, true), StopBegan(t), StopEnded(t, ok)]
  }

  ghost predicate IsStarting(s: Sys, t: Tid) {
    t in s.pcs && IsStarter(s.pcs[t]) && s.sh.log == StarterLog(s.pcs[t], t)
  }

  ghost predicate IsStopping(s: Sys, a: Tid, t: Tid) {
    t in s.pcs && IsStopper(s.pcs[t]) && s.sh.log == StopperLog(s.pcs[t], a, t)
  }

  ghost predicate IsStarted(s: Sys, a: Tid, ok: bool) {
    s.sh.log == [StartBegan(a), StartEnded(a, ok)]
  }

  ghost predicate IsStopped(s: Sys, a: Tid, t: Tid, ok: bool) {
    s.sh.log == FullLog(a, t, ok)
  }

  /** The state determines the shape of the event log: the callbacks ran at most once each, in order. */
  ghost predicate LogFits(s: Sys) {
    match s.sh.state
    case Unstarted => s.sh.log == []
    case Starting => exists t :: IsStarting(s, t)
    case Started => exists a :: IsStarted(s, a, true)
    case StartFailed => exists a :: IsStarted(s, a, false)
    case Stopping => exists a, t :: IsStopping(s, a, t)
    case Stopped => exists a, t :: IsStopped(s, a, t, true)
    case StopFailed => exists a, t :: IsStopped(s, a, t, false)
  }

  ghost predicate FitInv(s: Sys) {
    && (forall t | t in s.pcs :: Fits(s.pcs[t], s.sh.state))
    && (forall t, u | t in s.pcs && u in s.pcs && IsStarter(s.pcs[t]) && IsStarter(s.pcs[u]) :: t == u)
  }

  ghost predicate Inv(s: Sys) {
    LockInv(s) && FitInv(s) && LogFits(s)
  }

  /** How a step may move the lock: in and out of it, as its program points say. */
  predicate LockMove(t: Tid, h: Shared, pc: Pc, h': Shared, pc': Pc) {
    && (match (HoldsWrite(pc), HoldsWrite(pc'))
        case (false, true) => Free(h) && h'.writer == Some(t)
        case (true, false) => h'.writer == None
        case _ => h'.writer == h.writer)
    && (match (HoldsRead(pc), HoldsRead(pc'))
        case (false, true) => h.writer.None? && h'.readers == h.readers + {t}
        case (true, false) => h'.readers == h.readers - {t}
        case _ => h'.readers == h.readers)
  }

  predicate Edge(a: State, b: State) {
    match a
    case Unstarted => b == Starting
    case Starting => b == Started || b == StartFailed
    case Started => b == Stopping
    case Stopping => b == Stopped || b == StopFailed
    case _ => false
  }

  /** How a step may move the state: forward, and under the lock except to begin the start. */
  predicate StateMove(h: Shared, pc: Pc, h': Shared, pc': Pc) {
    && Fits(pc', h'.state)
    && (h'.state != h.state ==> Edge(h.state, h'.state) && (h.state == Unstarted || HoldsWrite(pc)))
    && (h'.state != h.state && h.state == Stopping ==> pc.StopAtPublish?)
    && (IsStarter(pc') && !IsStarter(pc) ==> h.state == Unstarted)
  }

  lemma StartMoves(t: Tid, h: Shared, pc: Pc, h': Shared, pc': Pc)
    requires StartStep(t, h, pc, h', pc') && Fits(pc, h.state)
    ensures LockMove(t, h, pc, h', pc') && StateMove(h, pc, h', pc') && h.log <= h'.log
  {
  }

  lemma StopMoves(t: Tid, h: Shared, pc: Pc, h': Shared, pc': Pc)
    requires StopStep(t, h, pc, h', pc') && Fits(pc, h.state)
    requires h.writer.None? ==> h.state != Stopping
    ensures LockMove(t, h, pc, h', pc') && StateMove(h, pc, h', pc') && h.log <= h'.log
  {
  }

  lemma GuardMoves(t: Tid, h: Shared, pc: Pc, h': Shared, pc': Pc)
    requires GuardStep(t, h, pc, h', pc') && Fits(pc, h.state)
    requires h.writer.None? ==> h.state != Stopping
    ensures LockMove(t, h, pc, h', pc') && StateMove(h, pc, h', pc') && h.log <= h'.log
  {
  }

  lemma Moves(t: Tid, h: Shared, pc: Pc, h': Shared, pc': Pc)
    requires Local(t, h, pc, h', pc') && Fits(pc, h.state)
    requires h.writer.None? ==> h.state != Stopping
    ensures LockMove(t, h, pc, h', pc') && StateMove(h, pc, h', pc') && h.log <= h'.log
  {
    if StartStep(t, h, pc, h', pc') {
      StartMoves(t, h, pc, h', pc');
    } else if StopStep(t, h, pc, h', pc') {
      StopMoves(t, h, pc, h', pc');
    } else if GuardStep(t, h, pc, h', pc') {
      GuardMoves(t, h, pc, h', pc');
    }
  }

  /** Moves, for a step taken in a state of the invariant. */
  lemma StepMoves(s: Sys, s': Sys, t: Tid)
    requires Inv(s) && Step(s, s', t)
    ensures LockMove(t, s.sh, s.pcs[t], s'.sh, s'.pcs[t]) && StateMove(s.sh, s.pcs[t], s'.sh, s'.pcs[t])
    ensures s.sh.log <= s'.sh.log
  {
    if s.sh.state == Stopping {
      var a, u :| IsStopping(s, a, u);
      assert s.sh.writer == Some(u);
    }
    Moves(t, s.sh, s.pcs[t], s'.sh, s'.pcs[t]);
  }

  lemma LockKept(s: Sys, s': Sys, t: Tid)
    requires Inv(s) && Step(s, s', t)
    ensures LockInv(s')
  {
    StepMoves(s, s', t);
  }

  /** A caller elsewhere is at a program point that the step of `t` leaves fitting. */
  lemma Undisturbed(pc: Pc, state: State, state': State)
    requires Fits(pc, state) && Before(state, state')
    requires HoldsWrite(pc) || HoldsRead(pc) ==> state' == state || (state == Unstarted && state' == Starting)
    requires IsStarter(pc) ==> state' == state
    ensures Fits(pc, state')
  {
  }

  lemma FitKept(s: Sys, s': Sys, t: Tid)
    requires Inv(s) && Step(s, s', t)
    ensures FitInv(s') && Before(s.sh.state, s'.sh.state) && s.sh.log <= s'.sh.log
  {
    StepMoves(s, s', t);
    forall u | u in s.pcs && u != t
      ensures Fits(s.pcs[u], s'.sh.state)
    {
      Undisturbed(s.pcs[u], s.sh.state, s'.sh.state);
    }
  }

  lemma UnstartedLogKept(s: Sys, s': Sys, t: Tid)
    requires Inv(s) && Step(s, s', t) && s.sh.state == Unstarted
    ensures LogFits(s')
  {
    StepMoves(s, s', t);
    if s'.sh.state == Starting {
      assert IsStarting(s', t);
    }
  }

  lemma StartingLogKept(s: Sys, s': Sys, t: Tid)
    requires Inv(s) && Step(s, s', t) && s.sh.state == Starting
    ensures LogFits(s')
  {
    StepMoves(s, s', t);
    var u :| IsStarting(s, u);
    if s'.sh.state == Starting {
      assert IsStarting(s', u);
    } else {
      assert IsStarted(s', u, s'.sh.state == Started);
    }
  }

  lemma StartedLogKept(s: Sys, s': Sys, t: Tid)
    requires Inv(s) && Step(s, s', t) && s.sh.state == Started
    ensures LogFits(s')
  {
    StepMoves(s, s', t);
    var a :| IsStarted(s, a, true);
    if s'.sh.state == Stopping {
      assert IsStopping(s', a, t);
    } else {
      assert IsStarted(s', a, true);
    }
  }

  lemma StoppingLogKept(s: Sys, s': Sys, t: Tid)
    requires Inv(s) && Step(s, s', t) && s.sh.state == Stopping
    ensures LogFits(s')
  {
    StepMoves(s, s', t);
    var a, u :| IsStopping(s, a, u);
    if s'.sh.state == Stopping {
      assert IsStopping(s', a, u);
    } else {
      assert IsStopped(s', a, u, s'.sh.state == Stopped);
    }
  }

  lemma EndedLogKept(s: Sys, s': Sys, t: Tid)
    requires Inv(s) && Step(s, s', t) && s.sh.state in {StartFailed, Stopped, StopFailed}
    ensures LogFits(s')
  {
    StepMoves(s, s', t);
    if s.sh.state == StartFailed {
      var a :| IsStarted(s, a, false);
      assert IsStarted(s', a, false);
    } else {
      var a, u :| IsStopped(s, a, u, s.sh.state == Stopped);
      assert IsStopped(s', a, u, s.sh.state == Stopped);
    }
  }

  lemma LogKept(s: Sys, s': Sys, t: Tid)
    requires Inv(s) && Step(s, s', t)
    ensures LogFits(s')
  {
    match s.sh.state
    case Unstarted => UnstartedLogKept(s, s', t);
    case Starting => StartingLogKept(s, s', t);
    case Started => StartedLogKept(s, s', t);
    case Stopping => StoppingLogKept(s, s', t);
    case _ => EndedLogKept(s, s', t);
  }

  lemma StepKeepsInv(s: Sys, s': Sys, t: Tid)
    requires Inv(s) && Step(s, s', t)
    ensures Inv(s')
    ensures Before(s.sh.state, s'.sh.state) && s.sh.log <= s'.sh.log
  {
    LockKept(s, s', t);
    FitKept(s, s', t);
    LogKept(s, s', t);
  }

  // ----- Every run -----

  lemma {:induction false} RunInv(r: seq<Sys>, i: nat)
    requires IsRun(r) && i < |r|
    ensures Inv(r[i])
  {
    if i == 0 {
    } else {
      RunInv(r, i - 1);
      assert Next(r[i - 1], r[i]);
      var t :| Step(r[i - 1], r[i], t);
      StepKeepsInv(r[i - 1], r[i], t);
    }
  }

  /** The callbacks run at most once each, and the stop callback only after the start callback succeeded. */
  ghost predicate CallbacksOnce(log: seq<Event>) {
    && (forall j, k | 0 <= j < |log| && 0 <= k < |log| && log[j].StartBegan? && log[k].StartBegan? :: j == k)
    && (forall j, k | 0 <= j < |log| && 0 <= k < |log| && log[j].StopBegan? && log[k].StopBegan? :: j == k)
    && (forall k | 0 <= k < |log| && log[k].StopBegan? :: exists j | 0 <= j < k :: log[j].StartEnded? && log[j].ok)
  }

  /** No callback guarded by the state, and no start, is under way while the stop callback is. */
  ghost predicate TeardownAlone(s: Sys) {
    forall t, u | t in s.pcs && u in s.pcs && t != u && s.pcs[t].StopInBody? ::
      !s.pcs[u].StopInBody? && !s.pcs[u].StartInBody? && !s.pcs[u].IfStartedInBody? && !s.pcs[u].IfNotStoppedInBody?
  }

  /** Both "unreachable state" panics are unreachable, and each result matches the state from then on. */
  ghost predicate ResultsTrue(s: Sys) {
    forall t | t in s.pcs ::
      !s.pcs[t].Panicked? && (s.pcs[t].Returned? ==> OutcomeFits(s.pcs[t].outcome, s.sh.state))
  }

  lemma StartLogIsOnce(log: seq<Event>, t: Tid, ok: bool)
    requires log <= [StartBegan(t), StartEnded(t, ok)]
    ensures CallbacksOnce(log)
  {
  }

  lemma StopLogIsOnce(log: seq<Event>, a: Tid, t: Tid, ok: bool)
    requires log <= FullLog(a, t, ok)
    ensures CallbacksOnce(log)
  {
    var full := FullLog(a, t, ok);
    assert full[1] == StartEnded(a, true);
    assert forall k | 0 <= k < |log| :: log[k] == full[k];
  }

  lemma LogIsOnce(s: Sys)
    requires LogFits(s)
    ensures CallbacksOnce(s.sh.log)
  {
    match s.sh.state
    case Unstarted =>
    case Starting =>
      var t :| IsStarting(s, t);
      var ok := s.pcs[t].StartAtPublish? && s.pcs[t].ok;
      StartLogIsOnce(s.sh.log, t, ok);
    case Started =>
      var a :| IsStarted(s, a, true);
      StartLogIsOnce(s.sh.log, a, true);
    case StartFailed =>
      var a :| IsStarted(s, a, false);
      StartLogIsOnce(s.sh.log, a, false);
    case Stopping =>
      var a, t :| IsStopping(s, a, t);
      var ok := s.pcs[t].StopAtPublish? && s.pcs[t].ok;
      StopLogIsOnce(s.sh.log, a, t, ok);
    case Stopped =>
      var a, t :| IsStopped(s, a, t, true);
      StopLogIsOnce(s.sh.log, a, t, true);
    case StopFailed =>
      var a, t :| IsStopped(s, a, t, false);
      StopLogIsOnce(s.sh.log, a, t, false);
  }

  /** The guarantee of the lifecycle guard, in every state of every run. */
  lemma RunsAreSafe(r: seq<Sys>, i: nat)
    requires IsRun(r) && i < |r|
    ensures CallbacksOnce(r[i].sh.log)
    ensures TeardownAlone(r[i])
    ensures ResultsTrue(r[i])
    ensures forall t | t in r[i].pcs && r[i].pcs[t].IfStartedInBody? :: r[i].sh.state == Started
  {
    RunInv(r, i);
    LogIsOnce(r[i]);
  }

  lemma NextMovesForward(r: seq<Sys>, k: nat)
    requires IsRun(r) && k + 1 < |r|
    ensures Before(r[k].sh.state, r[k + 1].sh.state) && r[k].sh.log <= r[k + 1].sh.log
  {
    RunInv(r, k);
    var t :| Step(r[k], r[k + 1], t);
    StepKeepsInv(r[k], r[k + 1], t);
  }

  /** States only move forward, and nothing that happened is forgotten. */
  lemma {:induction false} RunsMoveForward(r: seq<Sys>, i: nat, j: nat)
    requires IsRun(r) && i <= j < |r|
    ensures Before(r[i].sh.state, r[j].sh.state) && r[i].sh.log <= r[j].sh.log
    decreases j - i
  {
    if i == j {
    } else {
      NextMovesForward(r, i);
      RunsMoveForward(r, i + 1, j);
    }
  }

  // ----- Where stop does not wait for start -----

  ghost predicate WaitsToStart(s: Sys) {
    exists t :: t in s.pcs && s.pcs[t] == StartAtLock
  }

  predicate LooksAtState(pc: Pc) {
    pc == StopAtCas || pc == StopAtLoad
  }

  /** While a stop holds the lock to look at the state, a start is under way only before it has got the lock. */
  lemma StateSeenByStop(s: Sys, u: Tid)
    requires Inv(s) && u in s.pcs && LooksAtState(s.pcs[u])
    ensures s.sh.state == Starting <==> WaitsToStart(s)
    ensures s.sh.state == Starting || s.sh.state == Unstarted ==> s.sh.log == []
  {
    assert s.sh.writer == Some(u);
    if s.sh.state == Starting {
      var t :| IsStarting(s, t);
      assert !HoldsWrite(s.pcs[t]);
    }
  }

  /** The call of StopOnce is not over yet. */
  predicate InStop(pc: Pc) {
    LooksAtState(pc) || pc == StopAtLock || IsStopper(pc) || pc.StopAtUnlock?
  }

  /** The caller has, or is about to get, this reply. */
  predicate Replies(pc: Pc, outcome: Outcome) {
    pc == StopAtUnlock(outcome) || pc == Returned(outcome)
  }

  /** The caller's last look at the state happens between r[k] and r[k + 1], with a start waiting for the lock. */
  ghost predicate LooksDuringStart(r: seq<Sys>, k: nat, u: Tid) {
    && k + 1 < |r| && u in r[k].pcs && u in r[k + 1].pcs
    && r[k].pcs[u] == StopAtLoad && r[k + 1].pcs[u] != StopAtLoad
    && WaitsToStart(r[k])
  }

  lemma CallersStay(r: seq<Sys>, k: nat)
    requires IsRun(r) && k + 1 < |r|
    ensures r[k + 1].pcs.Keys == r[k].pcs.Keys
  {
    var t :| Step(r[k], r[k + 1], t);
  }

  /** A rejection comes out of one look at the state. */
  lemma RejectionStep(t: Tid, h: Shared, pc: Pc, h': Shared, pc': Pc, outcome: Outcome)
    requires Local(t, h, pc, h', pc') && (outcome == CannotStop(Starting) || outcome == CannotStopUnstarted)
    ensures Replies(pc', outcome) ==> Replies(pc, outcome) || (pc == StopAtLoad && RejectedStop(h.state) == outcome)
  {
    if StopStep(t, h, pc, h', pc') {
      StopReplies(t, h, pc, h', pc', outcome);
    } else if StartStep(t, h, pc, h', pc') {
      StartReplies(t, h, pc, h', pc', outcome);
    } else if GuardStep(t, h, pc, h', pc') {
      GuardReplies(t, h, pc, h', pc', outcome);
    }
  }

  lemma StopReplies(t: Tid, h: Shared, pc: Pc, h': Shared, pc': Pc, outcome: Outcome)
    requires StopStep(t, h, pc, h', pc') && (outcome == CannotStop(Starting) || outcome == CannotStopUnstarted)
    ensures Replies(pc', outcome) ==> Replies(pc, outcome) || (pc == StopAtLoad && RejectedStop(h.state) == outcome)
  {
  }

  lemma StartReplies(t: Tid, h: Shared, pc: Pc, h': Shared, pc': Pc, outcome: Outcome)
    requires StartStep(t, h, pc, h', pc') && (outcome == CannotStop(Starting) || outcome == CannotStopUnstarted)
    ensures !Replies(pc', outcome)
  {
  }

  lemma GuardReplies(t: Tid, h: Shared, pc: Pc, h': Shared, pc': Pc, outcome: Outcome)
    requires GuardStep(t, h, pc, h', pc') && (outcome == CannotStop(Starting) || outcome == CannotStopUnstarted)
    ensures !Replies(pc', outcome)
  {
  }

  lemma LoadStep(t: Tid, h: Shared, pc: Pc, h': Shared, pc': Pc)
    requires Local(t, h, pc, h', pc') && pc == StopAtLoad
    ensures pc' == StopAtUnlock(RejectedStop(h.state))
  {
  }

  lemma UnlockStep(t: Tid, h: Shared, pc: Pc, h': Shared, pc': Pc)
    requires Local(t, h, pc, h', pc') && pc.StopAtUnlock?
    ensures pc' == Returned(pc.result)
  {
  }

  /** Where the reply about a start under way comes from: one step of the caller. */
  lemma ReplyStep(r: seq<Sys>, k: nat, u: Tid)
    requires IsRun(r) && k + 1 < |r| && u in r[k].pcs && u in r[k + 1].pcs && InStop(r[k].pcs[u])
    ensures Replies(r[k + 1].pcs[u], CannotStop(Starting)) <==>
            Replies(r[k].pcs[u], CannotStop(Starting)) || LooksDuringStart(r, k, u)
  {
    RunInv(r, k);
    var t :| Step(r[k], r[k + 1], t);
    if t == u {
      RejectionStep(u, r[k].sh, r[k].pcs[u], r[k + 1].sh, r[k + 1].pcs[u], CannotStop(Starting));
      if r[k].pcs[u] == StopAtLoad {
        LoadStep(u, r[k].sh, r[k].pcs[u], r[k + 1].sh, r[k + 1].pcs[u]);
        StateSeenByStop(r[k], u);
      } else if r[k].pcs[u].StopAtUnlock? {
        UnlockStep(u, r[k].sh, r[k].pcs[u], r[k + 1].sh, r[k + 1].pcs[u]);
      }
    }
  }

  ghost predicate OnCall(r: seq<Sys>, i: nat, j: nat, u: Tid, k: nat) {
    && k < |r| && u in r[k].pcs
    && (k == i ==> r[k].pcs[u] == StopAtLock)
    && (k < j ==> InStop(r[k].pcs[u]))
  }

  /** One call of StopOnce, from its wait for the lock at r[i] to r[j]. */
  ghost predicate IsStopCall(r: seq<Sys>, i: nat, j: nat, u: Tid) {
    i <= j && forall k: nat | i <= k <= j :: OnCall(r, i, j, u, k)
  }

  ghost predicate LookedDuringStart(r: seq<Sys>, i: nat, j: nat, u: Tid) {
    exists k | i <= k < j :: LooksDuringStart(r, k, u)
  }

  lemma LookedBefore(r: seq<Sys>, i: nat, j: nat, u: Tid)
    requires i < j
    ensures LookedDuringStart(r, i, j, u) <==> LookedDuringStart(r, i, j - 1, u) || LooksDuringStart(r, j - 1, u)
  {
    if LookedDuringStart(r, i, j, u) {
      var k :| i <= k < j && LooksDuringStart(r, k, u);
    }
  }

  lemma NothingLooked(r: seq<Sys>, i: nat, u: Tid)
    requires IsStopCall(r, i, i, u)
    ensures OnCall(r, i, i, u, i) && !Replies(r[i].pcs[u], CannotStop(Starting)) && !LookedDuringStart(r, i, i, u)
  {
    assert OnCall(r, i, i, u, i);
  }

  lemma CallUpTo(r: seq<Sys>, i: nat, j: nat, u: Tid)
    requires IsStopCall(r, i, j, u) && i < j
    ensures IsStopCall(r, i, j - 1, u) && OnCall(r, i, j, u, j - 1) && OnCall(r, i, j, u, j)
  {
    var m := j - 1;
    forall k: nat | i <= k <= m
      ensures OnCall(r, i, m, u, k)
    {
      assert OnCall(r, i, j, u, k);
    }
  }

  lemma RejectedNext(r: seq<Sys>, i: nat, j: nat, u: Tid)
    requires IsRun(r) && i < j < |r| && u in r[j - 1].pcs && u in r[j].pcs && InStop(r[j - 1].pcs[u])
    requires Replies(r[j - 1].pcs[u], CannotStop(Starting)) == LookedDuringStart(r, i, j - 1, u)
    ensures Replies(r[j].pcs[u], CannotStop(Starting)) == LookedDuringStart(r, i, j, u)
  {
    ReplyStepAt(r, j - 1, j, u);
    LookedBefore(r, i, j, u);
  }

  /** A call of StopOnce is turned away because of a start under way exactly if a start is waiting for the lock when the
      call takes its last look at the state. */
  lemma {:induction false} StopRejectedIff(r: seq<Sys>, i: nat, j: nat, u: Tid)
    requires IsRun(r) && IsStopCall(r, i, j, u)
    ensures j < |r| && u in r[j].pcs
    ensures Replies(r[j].pcs[u], CannotStop(Starting)) == LookedDuringStart(r, i, j, u)
    decreases j - i
  {
    if i == j {
      NothingLooked(r, i, u);
    } else {
      CallUpTo(r, i, j, u);
      StopRejectedIff(r, i, j - 1, u);
      RejectedNext(r, i, j, u);
    }
  }

  lemma ReplyStepAt(r: seq<Sys>, k: nat, j: nat, u: Tid)
    requires IsRun(r) && j == k + 1 && j < |r| && u in r[k].pcs && u in r[j].pcs && InStop(r[k].pcs[u])
    ensures Replies(r[j].pcs[u], CannotStop(Starting)) <==>
            Replies(r[k].pcs[u], CannotStop(Starting)) || LooksDuringStart(r, k, u)
  {
    ReplyStep(r, k, u);
  }

  /** The start callback has begun, so the start has had the lock. */
  predicate Begun(log: seq<Event>) {
    exists k | 0 <= k < |log| :: log[k].StartBegan?
  }

  /** The two replies that say the start is not over. */
  predicate Premature(pc: Pc) {
    Replies(pc, CannotStop(Starting)) || Replies(pc, CannotStopUnstarted)
  }

  lemma NotPrematureStep(r: seq<Sys>, k: nat, u: Tid)
    requires IsRun(r) && k + 1 < |r| && u in r[k].pcs && u in r[k + 1].pcs && Begun(r[k].sh.log)
    requires !Premature(r[k].pcs[u])
    ensures !Premature(r[k + 1].pcs[u])
  {
    RunInv(r, k);
    var t :| Step(r[k], r[k + 1], t);
    if t == u {
      RejectionStep(u, r[k].sh, r[k].pcs[u], r[k + 1].sh, r[k + 1].pcs[u], CannotStop(Starting));
      RejectionStep(u, r[k].sh, r[k].pcs[u], r[k + 1].sh, r[k + 1].pcs[u], CannotStopUnstarted);
      if r[k].pcs[u] == StopAtLoad {
        StateSeenByStop(r[k], u);
      }
    }
  }

  /** What StopOnce does promise: once the start callback has begun, no call that is made, or that still has to look at
      the state, is ever answered that the start is under way or has not happened; it waits for the start to end. */
  lemma {:induction false} StopWaitsForBegunStart(r: seq<Sys>, i: nat, j: nat, u: Tid)
    requires IsRun(r) && i <= j < |r| && Begun(r[i].sh.log) && u in r[i].pcs && !Premature(r[i].pcs[u])
    ensures u in r[j].pcs && !Premature(r[j].pcs[u])
    decreases j - i
  {
    if i == j {
    } else {
      CallersStay(r, i);
      NotPrematureStep(r, i, u);
      NextMovesForward(r, i);
      BegunStays(r[i].sh.log, r[i + 1].sh.log);
      StopWaitsForBegunStart(r, i + 1, j, u);
    }
  }

  lemma BegunStays(log: seq<Event>, log': seq<Event>)
    requires Begun(log) && log <= log'
    ensures Begun(log')
  {
    var k :| 0 <= k < |log| && log[k].StartBegan?;
    assert log'[k] == log[k];
  }

  /** Two callers: 0 wins the compare-and-swap of the start, 1 gets the lock first, and then 0 does. */
  function OvertakenStart(): seq<Sys> {
    var h := Shared(Unstarted, None, {}, []);
    var g := h.(state := Starting);
    var l := g.(writer := Some(1));
    [Sys(h, map[0 := Idle, 1 := Idle]),
     Sys(h, map[0 := StartAtCas, 1 := Idle]),
     Sys(g, map[0 := StartAtLock, 1 := Idle]),
     Sys(g, map[0 := StartAtLock, 1 := StopAtLock]),
     Sys(l, map[0 := StartAtLock, 1 := StopAtCas]),
     Sys(l, map[0 := StartAtLock, 1 := StopAtLoad]),
     Sys(l, map[0 := StartAtLock, 1 := StopAtUnlock(CannotStop(Starting))]),
     Sys(g, map[0 := StartAtLock, 1 := Returned(CannotStop(Starting))])]
  }

  function StartAfterAll(): seq<Sys> {
    var stopped := Returned(CannotStop(Starting));
    var b := Shared(Starting, Some(0), {}, [StartBegan(0)]);
    var e := b.(log := [StartBegan(0), StartEnded(0, true)]);
    var d := e.(state := Started);
    [Sys(b, map[0 := StartInBody, 1 := stopped]),
     Sys(e, map[0 := StartAtPublish(true), 1 := stopped]),
     Sys(d, map[0 := StartAtUnlock(true), 1 := stopped]),
     Sys(d.(writer := None), map[0 := Returned(StartReturned(true)), 1 := stopped])]
  }

  lemma OvertakenSteps(i: nat)
    requires i < 7
    ensures Next(OvertakenStart()[i], OvertakenStart()[i + 1])
  {
    assert Step(OvertakenStart()[i], OvertakenStart()[i + 1], if i < 2 then 0 else 1);
  }

  lemma AfterAllSteps(i: nat)
    requires i < 3
    ensures Next(StartAfterAll()[i], StartAfterAll()[i + 1])
  {
    assert Step(StartAfterAll()[i], StartAfterAll()[i + 1], 0);
  }

  lemma StartGoesOn()
    ensures Next(OvertakenStart()[7], StartAfterAll()[0])
  {
    assert Step(OvertakenStart()[7], StartAfterAll()[0], 0);
  }

  /** Such a stop exists: it is turned away with the state Starting, and the start it did not wait for succeeds. */
  lemma StopCanOvertakeStart(r: seq<Sys>)
    requires r == OvertakenStart() + StartAfterAll()
    ensures IsRun(r) && |r| == 12
    ensures r[3].pcs[1] == StopAtLock && r[7].pcs[1] == Returned(CannotStop(Starting))
    ensures r[11].sh.state == Started && r[11].pcs[0] == Returned(StartReturned(true)) && r[11].pcs[1] == r[7].pcs[1]
  {
    forall i, j | 0 <= i && j == i + 1 && j < |r|
      ensures Next(r[i], r[j])
    {
      if i < 7 {
        OvertakenSteps(i);
      } else if i == 7 {
        StartGoesOn();
      } else {
        AfterAllSteps(i - 8);
      }
    }
  }
}
