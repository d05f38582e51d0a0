/** The mutable and immutable chain sets of core/chains/chain_set.go under concurrent Chain, Start and Close.

    The lifecycle guard is the one of StartStopOnce: its start and stop callbacks are the bodies of Start and
    Close below. Chain is cut at every lock operation, readiness check, map access, query and service call.
    Services are numbered in the order NewChain makes them; the ledger counts their Start and Close calls. */
module ChainSetProtocol {
  import opened Wrappers
  import O = StartStopOnce

  type Tid = O.Tid
  type Svc = int

  /** The service's chain id, the Start calls on it that succeeded, and the Close calls on it. */
  datatype Record = Record(id: string, starts: nat, closes: nat)

  /** How far the set has got in closing services: in a failed start, or in a teardown. */
  datatype Phase = Quiet | RollingBack | RolledBack | TearingDown | TornDown

  datatype Pc =
    | Out
    // Chain(id)
    | AskReady(id: string) | AskRLock(id: string) | AskRead(id: string) | AskRUnlock(id: string, found: Option<Svc>)
    | AskLock(id: string) | AskReadyAgain(id: string) | AskLookup(id: string) | AskLoad(id: string) | AskNew(id: string)
    | AskStart(id: string, v: Svc) | AskInsert(id: string, v: Svc) | AskUnlock(id: string, result: Option<Svc>)
    | AskReturned(id: string, result: Option<Svc>)
    // the body of Start
    | StartLock | StartLoop(todo: set<string>, started: seq<Svc>)
    | StartRollback(started: seq<Svc>) | StartUnlock(ok: bool)
    // the body of Close
    | CloseLock | CloseLoop(todo: set<string>, ok: bool) | CloseUnlock(ok: bool)
    | BodyDone(ok: bool)

  /** What chainsMu protects, and what was done to services: the ledger, whose Start was called, whose Close failed. */
  datatype Books = Books(chains: map<string, Svc>, ledger: map<Svc, Record>, phase: Phase, tried: set<Svc>,
    failed: set<Svc>)

  /** chainsMu and what it protects. */
  datatype Shared = Shared(writer: Option<Tid>, readers: set<Tid>, b: Books)

  datatype Sys = Sys(immutable: bool, once: O.Sys, h: Shared, pcs: map<Tid, Pc>)

  // ----- Steps -----

  predicate Free(h: Shared) {
    h.writer.None? && h.readers == {}
  }

  function Started(b: Books, v: Svc): Books
    requires v in b.ledger
  {
    b.(ledger := b.ledger[v := b.ledger[v].(starts := b.ledger[v].starts + 1)], tried := b.tried + {v})
  }

  function NotStarted(b: Books, v: Svc): Books {
    b.(tried := b.tried + {v})
  }

  function Closed(b: Books, v: Svc, ok: bool): Books
    requires v in b.ledger
  {
    b.(ledger := b.ledger[v := b.ledger[v].(closes := b.ledger[v].closes + 1)],
       failed := if ok then b.failed else b.failed + {v})
  }

  /** Chain, up to the point where it needs the write lock. */
  predicate LookStep(t: Tid, state: O.State, h: Shared, pc: Pc, h': Shared, pc': Pc) {
    match pc
    case Out | AskReturned(_, _) =>
      (if pc'.AskReady? then pc'.id != "" else pc' == AskReturned("", None)) && h' == h
    case AskReady(id) =>
      pc' == (if state == O.Started then AskRLock(id) else AskReturned(id, None)) && h' == h
    case AskRLock(id) =>
      h.writer.None? && pc' == AskRead(id) && h' == h.(readers := h.readers + {t})
    case AskRead(id) =>
      pc' == AskRUnlock(id, if id in h.b.chains then Some(h.b.chains[id]) else None) && h' == h
    case AskRUnlock(id, found) =>
      pc' == (if found.Some? then AskReturned(id, found) else AskLock(id)) && h' == h.(readers := h.readers - {t})
    case _ => false
  }

  /** Chain, once it has to create the service. */
  predicate MakeStep(t: Tid, state: O.State, h: Shared, pc: Pc, h': Shared, pc': Pc) {
    match pc
    case AskLock(id) =>
      Free(h) && pc' == AskReadyAgain(id) && h' == h.(writer := Some(t))
    case AskReadyAgain(id) =>
      pc' == (if state == O.Started then AskLookup(id) else AskUnlock(id, None)) && h' == h
    case AskLookup(id) =>
      pc' == (if id in h.b.chains then AskUnlock(id, Some(h.b.chains[id])) else AskLoad(id)) && h' == h
    case AskLoad(id) =>
      (pc' == AskUnlock(id, None) || pc' == AskNew(id)) && h' == h
    case AskNew(id) =>
      || (pc' == AskUnlock(id, None) && h' == h)
      || (pc'.AskStart? && pc'.id == id && pc'.v !in h.b.ledger &&
          h' == h.(b := h.b.(ledger := h.b.ledger[pc'.v := Record(id, 0, 0)])))
    case AskStart(id, v) =>
      || (pc' == AskUnlock(id, None) && h' == h.(b := NotStarted(h.b, v)))
      || (pc' == AskInsert(id, v) && v in h.b.ledger && h' == h.(b := Started(h.b, v)))
    case AskInsert(id, v) =>
      pc' == AskUnlock(id, Some(v)) && h' == h.(b := h.b.(chains := h.b.chains[id := v]))
    case AskUnlock(id, result) =>
      pc' == AskReturned(id, result) && h' == h.(writer := None)
    case _ => false
  }

  /** The body of Start: the immutable set rolls back on the first failure, the mutable one goes on. */
  predicate StartStep(t: Tid, immutable: bool, h: Shared, pc: Pc, h': Shared, pc': Pc) {
    match pc
    case StartLock =>
      Free(h) && pc' == StartLoop(h.b.chains.Keys, []) && h' == h.(writer := Some(t))
    case StartLoop(todo, started) =>
      if todo == {} then pc' == StartUnlock(true) && h' == h else
      || (immutable && pc' == StartRollback(started) && ChosenBreaks(h, todo, h'))
      || (!immutable && pc'.StartLoop? && pc'.started == started && ChosenSkipped(h, todo, pc'.todo, h'))
      || (pc'.StartLoop? && ChosenStarted(h, todo, started, pc'.todo, pc'.started, h'))
    case StartRollback(started) =>
      if started == [] then pc' == StartUnlock(false) && h' == h.(b := h.b.(phase := RolledBack)) else
      var v := started[|started| - 1];
      && pc' == StartRollback(started[..|started| - 1]) && v in h.b.ledger
      && (h' == h.(b := Closed(h.b, v, true)) || h' == h.(b := Closed(h.b, v, false)))
    case StartUnlock(ok) =>
      pc' == BodyDone(ok) && h' == h.(writer := None)
    case _ => false
  }

  /** The service of one key, in whatever order the map is ranged over, fails to start: an immutable set gives up. */
  predicate ChosenBreaks(h: Shared, todo: set<string>, h': Shared) {
    exists id | id in todo && id in h.b.chains ::
      h' == h.(b := NotStarted(h.b, h.b.chains[id]).(phase := RollingBack))
  }

  predicate ChosenSkipped(h: Shared, todo: set<string>, todo': set<string>, h': Shared) {
    exists id | id in todo && id in h.b.chains :: todo' == todo - {id} && h' == h.(b := NotStarted(h.b, h.b.chains[id]))
  }

  predicate ChosenStarted(h: Shared, todo: set<string>, started: seq<Svc>, todo': set<string>, started': seq<Svc>,
      h': Shared) {
    exists id | id in todo && id in h.b.chains && h.b.chains[id] in h.b.ledger ::
      todo' == todo - {id} && started' == started + [h.b.chains[id]] && h' == h.(b := Started(h.b, h.b.chains[id]))
  }

  predicate ChosenClosed(h: Shared, todo: set<string>, todo': set<string>, ok: bool, h': Shared) {
    exists id | id in todo && id in h.b.chains && h.b.chains[id] in h.b.ledger ::
      todo' == todo - {id} && h' == h.(b := Closed(h.b, h.b.chains[id], ok))
  }

  /** The body of Close: every service in the map is closed, whatever the earlier ones returned, and errors add up. */
  predicate CloseStep(t: Tid, h: Shared, pc: Pc, h': Shared, pc': Pc) {
    match pc
    case CloseLock =>
      Free(h) && pc' == CloseLoop(h.b.chains.Keys, true) && h' == h.(writer := Some(t), b := h.b.(phase := TearingDown))
    case CloseLoop(todo, ok) =>
      if todo == {} then pc' == CloseUnlock(ok) && h' == h.(b := h.b.(phase := TornDown)) else
      pc'.CloseLoop? &&
      if pc'.ok then ok && ChosenClosed(h, todo, pc'.todo, true, h')
      else ChosenClosed(h, todo, pc'.todo, false, h') || (!ok && ChosenClosed(h, todo, pc'.todo, true, h'))
    case CloseUnlock(ok) =>
      pc' == BodyDone(ok) && h' == h.(writer := None)
    case _ => false
  }

  predicate InAsk(pc: Pc) {
    pc.AskReady? || pc.AskRLock? || pc.AskRead? || pc.AskRUnlock? || InMake(pc)
  }

  predicate InMake(pc: Pc) {
    pc.AskLock? || HoldsForMake(pc) || pc.AskUnlock?
  }

  predicate HoldsForMake(pc: Pc) {
    pc.AskReadyAgain? || IsMaking(pc)
  }

  /** Past the second readiness check. */
  predicate IsMaking(pc: Pc) {
    pc.AskLookup? || pc.AskLoad? || pc.AskNew? || pc.AskStart? || pc.AskInsert?
  }

  predicate InStart(pc: Pc) {
    pc.StartLock? || pc.StartLoop? || pc.StartRollback? || pc.StartUnlock?
  }

  predicate InClose(pc: Pc) {
    pc.CloseLock? || pc.CloseLoop? || pc.CloseUnlock?
  }

  /** The callbacks of the guard begin and end the bodies; Chain is called between calls of the guard. */
  predicate Gate(opc: O.Pc, opc': O.Pc, pc: Pc, pc': Pc) {
    if opc'.StartInBody? then (pc.Out? || pc.AskReturned?) && pc' == StartLock
    else if opc'.StopInBody? then (pc.Out? || pc.AskReturned?) && pc' == CloseLock
    else if opc.StartInBody? then pc.BodyDone? && opc' == O.StartAtPublish(pc.ok) && pc' == Out
    else if opc.StopInBody? then pc.BodyDone? && opc' == O.StopAtPublish(pc.ok) && pc' == Out
    else (pc.Out? || pc.AskReturned?) && pc' == pc
  }

  predicate Own(t: Tid, immutable: bool, opc: O.Pc, state: O.State, h: Shared, pc: Pc, h': Shared, pc': Pc) {
    if opc.StartInBody? then StartStep(t, immutable, h, pc, h', pc')
    else if opc.StopInBody? then CloseStep(t, h, pc, h', pc')
    else (opc.Idle? || opc.Returned?) &&
         if InMake(pc) then MakeStep(t, state, h, pc, h', pc') else LookStep(t, state, h, pc, h', pc')
  }

  ghost predicate Moves(s: Sys, s': Sys, t: Tid) {
    && s'.immutable == s.immutable
    && t in s.pcs && t in s'.pcs && s'.pcs == s.pcs[t := s'.pcs[t]]
    && t in s.once.pcs && t in s'.once.pcs
  }

  ghost predicate GateStep(s: Sys, s': Sys, t: Tid) {
    && Moves(s, s', t) && s'.h == s.h
    && O.Step(s.once, s'.once, t) && Gate(s.once.pcs[t], s'.once.pcs[t], s.pcs[t], s'.pcs[t])
  }

  ghost predicate OwnStep(s: Sys, s': Sys, t: Tid) {
    && Moves(s, s', t) && s'.once == s.once
    && Own(t, s.immutable, s.once.pcs[t], s.once.sh.state, s.h, s.pcs[t], s'.h, s'.pcs[t])
  }

  ghost predicate Step(s: Sys, s': Sys, t: Tid) {
    GateStep(s, s', t) || OwnStep(s, s', t)
  }

  ghost predicate Next(s: Sys, s': Sys) {
    exists t :: Step(s, s', t)
  }

  /** A new set: each loaded chain has its own service, none of them started. */
  ghost predicate Init(s: Sys) {
    && O.Init(s.once) && s.pcs.Keys == s.once.pcs.Keys
    && Free(s.h) && s.h.b.phase == Quiet && s.h.b.tried == {} && s.h.b.failed == {}
    && (forall t | t in s.pcs :: s.pcs[t] == Out)
    && (forall id | id in s.h.b.chains ::
          s.h.b.chains[id] in s.h.b.ledger && s.h.b.ledger[s.h.b.chains[id]] == Record(id, 0, 0))
    && (forall v | v in s.h.b.ledger :: s.h.b.ledger[v].id in s.h.b.chains && s.h.b.chains[s.h.b.ledger[v].id] == v)
  }

  ghost predicate IsRun(r: seq<Sys>) {
    |r| > 0 && Init(r[0]) && forall i, j :: 0 <= i && j == i + 1 && j < |r| ==> Next(r[i], r[j])
  }

  // ----- Inductive invariant -----

  predicate HoldsWrite(pc: Pc) {
    || HoldsForMake(pc) || pc.AskUnlock?
    || pc.StartLoop? || pc.StartRollback? || pc.StartUnlock?
    || pc.CloseLoop? || pc.CloseUnlock?
  }

  predicate HoldsRead(pc: Pc) {
    pc.AskRead? || pc.AskRUnlock?
  }

  ghost predicate LockInv(s: Sys) {
    && (forall t :: s.h.writer == Some(t) <==> t in s.pcs && HoldsWrite(s.pcs[t]))
    && (forall t :: t in s.h.readers <==> t in s.pcs && HoldsRead(s.pcs[t]))
    && (s.h.writer.Some? ==> s.h.readers == {})
  }

  /** The guard and the set are at matching program points. */
  predicate Pair(opc: O.Pc, pc: Pc) {
    if InAsk(pc) then opc.Idle? || opc.Returned?
    else if InStart(pc) then opc.StartInBody?
    else if InClose(pc) then opc.StopInBody?
    else if pc.BodyDone? then opc.StartInBody? || opc.StopInBody?
    else !opc.StartInBody? && !opc.StopInBody?
  }

  predicate NoneStarted(b: Books) {
    forall v | v in b.ledger :: b.ledger[v].starts == 0
  }

  predicate AllRunning(b: Books) {
    forall id | id in b.chains && b.chains[id] in b.ledger :: b.ledger[b.chains[id]].starts == 1
  }

  /** The Start of every service in the map was called. */
  predicate AllTried(b: Books) {
    forall id | id in b.chains :: b.chains[id] in b.tried
  }

  predicate Distinct(vs: seq<Svc>) {
    forall i, j | 0 <= i < j < |vs| :: vs[i] != vs[j]
  }

  /** Half way through the loop of Start: exactly the services in `started` run. */
  predicate LoopFits(immutable: bool, b: Books, todo: set<string>, started: seq<Svc>) {
    && todo <= b.chains.Keys && Distinct(started)
    && (forall v | v in b.ledger :: b.ledger[v].starts == if v in started then 1 else 0)
    && (forall id | id in b.chains && id in todo :: b.chains[id] !in started)
    && (immutable ==> forall id | id in b.chains && id !in todo :: b.chains[id] in started)
    && (forall id | id in b.chains && id !in todo :: b.chains[id] in b.tried)
    && (forall v | v in started :: v in b.ledger && Homed(b, v))
  }

  /** Half way through the rollback: exactly the services still in `started` run. */
  predicate RollbackFits(b: Books, started: seq<Svc>) {
    && Distinct(started)
    && (forall v | v in started :: v in b.ledger && Homed(b, v))
    && (forall v | v in b.ledger :: b.ledger[v].starts == b.ledger[v].closes + if v in started then 1 else 0)
  }

  predicate CloseFits(b: Books, todo: set<string>, ok: bool) {
    && todo <= b.chains.Keys && ok == (b.failed == {})
    && (forall id | id in b.chains && b.chains[id] in b.ledger ::
          b.ledger[b.chains[id]].closes == if id in todo then 0 else 1)
  }

  predicate Settled(immutable: bool, b: Books, ok: bool) {
    if ok then b.phase == Quiet && AllTried(b) && (immutable ==> AllRunning(b)) else b.phase == RolledBack && immutable
  }

  predicate MakingFits(state: O.State, b: Books, pc: Pc) {
    && (state == O.Started || state == O.Stopping) && b.phase == Quiet
    && (!pc.AskLookup? && (pc.AskLoad? || pc.AskNew? || pc.AskStart? || pc.AskInsert?) ==> pc.id !in b.chains)
    && (pc.AskStart? ==> pc.v in b.ledger && b.ledger[pc.v] == Record(pc.id, 0, 0))
    && (pc.AskInsert? ==> pc.v in b.ledger && b.ledger[pc.v] == Record(pc.id, 1, 0) && pc.v in b.tried)
  }

  predicate GuardFits(immutable: bool, opc: O.Pc, b: Books) {
    && (opc.StartAtLock? ==> b.phase == Quiet && NoneStarted(b))
    && (opc.StartAtPublish? ==> Settled(immutable, b, opc.ok))
    && (opc.StopAtPublish? ==> b.phase == TornDown && opc.ok == (b.failed == {}))
  }

  predicate Fits(immutable: bool, opc: O.Pc, state: O.State, b: Books, pc: Pc) {
    Pair(opc, pc) && GuardFits(immutable, opc, b) &&
    if IsMaking(pc) then MakingFits(state, b, pc) else
    match pc
    case StartLock => b.phase == Quiet && NoneStarted(b)
    case StartLoop(todo, started) => b.phase == Quiet && LoopFits(immutable, b, todo, started)
    case StartRollback(started) => immutable && b.phase == RollingBack && RollbackFits(b, started)
    case StartUnlock(ok) => Settled(immutable, b, ok)
    case BodyDone(ok) =>
      if opc.StartInBody? then Settled(immutable, b, ok) else b.phase == TornDown && ok == (b.failed == {})
    case CloseLock => b.phase == Quiet
    case CloseLoop(todo, ok) => b.phase == TearingDown && CloseFits(b, todo, ok)
    case CloseUnlock(ok) => b.phase == TornDown && ok == (b.failed == {})
    case _ => true
  }

  predicate Homed(b: Books, v: Svc)
    requires v in b.ledger
  {
    b.ledger[v].id in b.chains && b.chains[b.ledger[v].id] == v
  }

  /** Every call counted at most once, and the phase says which services have been closed. */
  predicate LedgerFits(b: Books) {
    && (forall id | id in b.chains :: b.chains[id] in b.ledger && b.ledger[b.chains[id]].id == id)
    && (forall v | v in b.ledger :: b.ledger[v].starts <= 1 && b.ledger[v].closes <= 1)
    && (forall v | v in b.ledger && b.ledger[v].closes > 0 :: Homed(b, v))
    && (forall v | v in b.failed :: v in b.ledger && b.ledger[v].closes > 0)
    && (match b.phase
        case Quiet => forall v | v in b.ledger :: b.ledger[v].closes == 0
        case RolledBack => forall v | v in b.ledger :: b.ledger[v].closes == b.ledger[v].starts
        case TornDown => forall id | id in b.chains :: b.ledger[b.chains[id]].closes == 1
        case _ => true)
  }

  predicate StateFits(immutable: bool, state: O.State, b: Books) {
    match state
    case Unstarted => b.phase == Quiet && NoneStarted(b)
    case Starting => b.phase == Quiet || b.phase == RollingBack || b.phase == RolledBack
    case Started => b.phase == Quiet && AllTried(b) && (immutable ==> AllRunning(b))
    case StartFailed => b.phase == RolledBack && immutable
    case Stopping => b.phase == Quiet || b.phase == TearingDown || b.phase == TornDown
    case Stopped => b.phase == TornDown && b.failed == {}
    case StopFailed => b.phase == TornDown && b.failed != {}
  }

  /** A service that was ever started is in the map, or is about to be put there by the holder of chainsMu. */
  ghost predicate NoOrphan(s: Sys) {
    forall v | v in s.h.b.ledger && s.h.b.ledger[v].starts > 0 ::
      Homed(s.h.b, v) || exists t :: Inserting(s, t, v)
  }

  ghost predicate Inserting(s: Sys, t: Tid, v: Svc) {
    v in s.h.b.ledger && t in s.pcs && s.pcs[t] == AskInsert(s.h.b.ledger[v].id, v)
  }

  ghost predicate Inv(s: Sys) {
    && O.Inv(s.once) && s.pcs.Keys == s.once.pcs.Keys
    && LockInv(s)
    && (forall t | t in s.pcs :: Fits(s.immutable, s.once.pcs[t], s.once.sh.state, s.h.b, s.pcs[t]))
    && LedgerFits(s.h.b) && StateFits(s.immutable, s.once.sh.state, s.h.b)
    && NoOrphan(s)
  }

  // ----- The caller that moves -----

  predicate LockMove(t: Tid, h: Shared, pc: Pc, h': Shared, pc': Pc) {
    && (match (HoldsWrite(pc), HoldsWrite(pc'))
        case (false, true) => Free(h) && h'.writer == Some(t)
        case (true, false) => h'.writer == None
        case _ => h'.writer == h.writer)
    && (match (HoldsRead(pc), HoldsRead(pc'))
        case (false, true) => h.writer.None? && h'.readers == h.readers + {t}
        case (true, false) => h'.readers == h.readers - {t}
        case _ => h'.readers == h.readers)
  }

  /** The steps that change what chainsMu protects. */
  predicate Writes(pc: Pc) {
    pc.AskNew? || pc.AskStart? || pc.AskInsert? || pc.StartLoop? || pc.StartRollback? || pc.CloseLock? || pc.CloseLoop?
  }

  lemma LookLock(t: Tid, state: O.State, h: Shared, pc: Pc, h': Shared, pc': Pc)
    requires LookStep(t, state, h, pc, h', pc')
    ensures LockMove(t, h, pc, h', pc') && h'.b == h.b && (InAsk(pc') || pc'.AskReturned?) && !IsMaking(pc')
  {
  }

  lemma MakeLock(t: Tid, state: O.State, h: Shared, pc: Pc, h': Shared, pc': Pc)
    requires MakeStep(t, state, h, pc, h', pc')
    ensures LockMove(t, h, pc, h', pc') && (InAsk(pc') || pc'.AskReturned?) && (!Writes(pc) ==> h'.b == h.b)
  {
  }

  lemma StartLockMove(t: Tid, immutable: bool, h: Shared, pc: Pc, h': Shared, pc': Pc)
    requires StartStep(t, immutable, h, pc, h', pc')
    ensures LockMove(t, h, pc, h', pc') && (InStart(pc') || pc'.BodyDone?) && (!Writes(pc) ==> h'.b == h.b)
  {
  }

  lemma CloseLockMove(t: Tid, h: Shared, pc: Pc, h': Shared, pc': Pc)
    requires CloseStep(t, h, pc, h', pc')
    ensures LockMove(t, h, pc, h', pc') && (InClose(pc') || pc'.BodyDone?) && (!Writes(pc) ==> h'.b == h.b)
  {
  }

  /** Stated below as an equation with true, which is one proof obligation and not one for each conjunct. */
  predicate Good(immutable: bool, opc: O.Pc, state: O.State, b: Books, pc: Pc) {
    Fits(immutable, opc, state, b, pc) && LedgerFits(b) && StateFits(immutable, state, b)
  }

  lemma StartedKept(b: Books, v: Svc)
    requires LedgerFits(b) && b.phase == Quiet && v in b.ledger && b.ledger[v].starts == 0
    ensures LedgerFits(Started(b, v))
    ensures forall id | id in b.chains && b.chains[id] != v ::
              Started(b, v).ledger[b.chains[id]] == b.ledger[b.chains[id]]
  {
  }

  lemma ClosedKept(b: Books, v: Svc, ok: bool)
    requires LedgerFits(b) && (b.phase == RollingBack || b.phase == TearingDown)
    requires v in b.ledger && Homed(b, v) && b.ledger[v].closes == 0
    ensures LedgerFits(Closed(b, v, ok))
  {
  }

  lemma NewMoves(t: Tid, immutable: bool, opc: O.Pc, state: O.State, h: Shared, pc: Pc, h': Shared, pc': Pc)
    requires pc.AskNew? && MakeStep(t, state, h, pc, h', pc') && Good(immutable, opc, state, h.b, pc) == true
    requires opc.Idle? || opc.Returned?
    ensures Good(immutable, opc, state, h'.b, pc') == true
  {
  }

  lemma StartNewMoves(t: Tid, immutable: bool, opc: O.Pc, state: O.State, h: Shared, pc: Pc, h': Shared, pc': Pc)
    requires pc.AskStart? && MakeStep(t, state, h, pc, h', pc') && Good(immutable, opc, state, h.b, pc) == true
    requires opc.Idle? || opc.Returned?
    ensures Good(immutable, opc, state, h'.b, pc') == true
  {
    if pc'.AskInsert? {
      StartedKept(h.b, pc.v);
    } else {
      assert LedgerFits(h'.b);
    }
  }

  lemma InsertMoves(t: Tid, immutable: bool, opc: O.Pc, state: O.State, h: Shared, pc: Pc, h': Shared, pc': Pc)
    requires pc.AskInsert? && MakeStep(t, state, h, pc, h', pc') && Good(immutable, opc, state, h.b, pc) == true
    requires opc.Idle? || opc.Returned?
    ensures Good(immutable, opc, state, h'.b, pc') == true
  {
  }

  lemma LookupMoves(t: Tid, immutable: bool, opc: O.Pc, state: O.State, h: Shared, pc: Pc, h': Shared, pc': Pc)
    requires !Writes(pc) && MakeStep(t, state, h, pc, h', pc') && Good(immutable, opc, state, h.b, pc) == true
    requires opc.Idle? || opc.Returned?
    ensures Good(immutable, opc, state, h'.b, pc') == true
  {
    MakeLock(t, state, h, pc, h', pc');
  }

  lemma MakeMoves(t: Tid, immutable: bool, opc: O.Pc, state: O.State, h: Shared, pc: Pc, h': Shared, pc': Pc)
    requires MakeStep(t, state, h, pc, h', pc') && Good(immutable, opc, state, h.b, pc) == true
    requires opc.Idle? || opc.Returned?
    ensures Good(immutable, opc, state, h'.b, pc') == true
  {
    match pc
    case AskNew(_) => NewMoves(t, immutable, opc, state, h, pc, h', pc');
    case AskStart(_, _) => StartNewMoves(t, immutable, opc, state, h, pc, h', pc');
    case AskInsert(_, _) => InsertMoves(t, immutable, opc, state, h, pc, h', pc');
    case _ => LookupMoves(t, immutable, opc, state, h, pc, h', pc');
  }

  lemma LoopStep(immutable: bool, b: Books, todo: set<string>, started: seq<Svc>, id: string)
    requires LedgerFits(b) && b.phase == Quiet && LoopFits(immutable, b, todo, started) && id in todo
    ensures var b' := Started(b, b.chains[id]);
            LedgerFits(b') && LoopFits(immutable, b', todo - {id}, started + [b.chains[id]])
  {
    StartedKept(b, b.chains[id]);
  }

  lemma RollbackStep(b: Books, started: seq<Svc>, ok: bool)
    requires LedgerFits(b) && b.phase == RollingBack && RollbackFits(b, started) && started != []
    ensures var v := started[|started| - 1];
            var b' := Closed(b, v, ok);
            LedgerFits(b') && RollbackFits(b', started[..|started| - 1])
  {
    var v := started[|started| - 1];
    assert v in started;
    assert forall u | u in b.ledger && u != v :: u in started[..|started| - 1] <==> u in started by {
      assert started == started[..|started| - 1] + [v];
    }
    ClosedKept(b, v, ok);
  }

  lemma ChosenId(h: Shared, todo: set<string>, started: seq<Svc>, todo': set<string>, started': seq<Svc>, h': Shared)
      returns (id: string)
    requires ChosenStarted(h, todo, started, todo', started', h')
    ensures id in todo && id in h.b.chains && h.b.chains[id] in h.b.ledger && todo' == todo - {id}
    ensures started' == started + [h.b.chains[id]] && h' == h.(b := Started(h.b, h.b.chains[id]))
  {
    id :| id in todo && id in h.b.chains && h.b.chains[id] in h.b.ledger &&
      todo' == todo - {id} && started' == started + [h.b.chains[id]] && h' == h.(b := Started(h.b, h.b.chains[id]));
  }

  lemma OneStarted(immutable: bool, opc: O.Pc, state: O.State, h: Shared, pc: Pc, h': Shared, pc': Pc)
    requires pc.StartLoop? && opc.StartInBody? && state == O.Starting && Good(immutable, opc, state, h.b, pc) == true
    requires pc'.StartLoop? && ChosenStarted(h, pc.todo, pc.started, pc'.todo, pc'.started, h')
    ensures Good(immutable, opc, state, h'.b, pc') == true
  {
    var id := ChosenId(h, pc.todo, pc.started, pc'.todo, pc'.started, h');
    LoopStep(immutable, h.b, pc.todo, pc.started, id);
  }

  lemma AllDone(immutable: bool, b: Books, started: seq<Svc>)
    requires LedgerFits(b) && LoopFits(immutable, b, {}, started)
    ensures AllTried(b) && (immutable ==> AllRunning(b))
  {
    assert forall id | id in b.chains :: id !in {};
  }

  lemma LoopEnds(immutable: bool, opc: O.Pc, state: O.State, h: Shared, pc: Pc, h': Shared, pc': Pc)
    requires pc.StartLoop? && opc.StartInBody? && state == O.Starting && Good(immutable, opc, state, h.b, pc) == true
    requires pc.todo == {} && pc' == StartUnlock(true) && h' == h
    ensures Good(immutable, opc, state, h'.b, pc') == true
  {
    AllDone(immutable, h.b, pc.started);
  }

  lemma RollbackBegins(immutable: bool, opc: O.Pc, state: O.State, h: Shared, pc: Pc, h': Shared, pc': Pc)
    requires pc.StartLoop? && opc.StartInBody? && state == O.Starting && Good(immutable, opc, state, h.b, pc) == true
    requires immutable && pc' == StartRollback(pc.started) && ChosenBreaks(h, pc.todo, h')
    ensures Good(immutable, opc, state, h'.b, pc') == true
  {
  }

  lemma LoopSkip(immutable: bool, b: Books, todo: set<string>, started: seq<Svc>, id: string)
    requires LedgerFits(b) && b.phase == Quiet && LoopFits(immutable, b, todo, started) && id in todo && !immutable
    ensures LedgerFits(NotStarted(b, b.chains[id]))
    ensures LoopFits(immutable, NotStarted(b, b.chains[id]), todo - {id}, started)
  {
  }

  lemma SkippedId(h: Shared, todo: set<string>, todo': set<string>, h': Shared) returns (id: string)
    requires ChosenSkipped(h, todo, todo', h')
    ensures id in todo && id in h.b.chains && todo' == todo - {id} && h' == h.(b := NotStarted(h.b, h.b.chains[id]))
  {
    id :| id in todo && id in h.b.chains && todo' == todo - {id} && h' == h.(b := NotStarted(h.b, h.b.chains[id]));
  }

  lemma OneSkipped(immutable: bool, opc: O.Pc, state: O.State, h: Shared, pc: Pc, h': Shared, pc': Pc)
    requires pc.StartLoop? && opc.StartInBody? && state == O.Starting && Good(immutable, opc, state, h.b, pc) == true
    requires !immutable && pc'.StartLoop? && pc'.started == pc.started && ChosenSkipped(h, pc.todo, pc'.todo, h')
    ensures Good(immutable, opc, state, h'.b, pc') == true
  {
    var id := SkippedId(h, pc.todo, pc'.todo, h');
    LoopSkip(immutable, h.b, pc.todo, pc.started, id);
  }

  lemma StartLoopMoves(t: Tid, immutable: bool, opc: O.Pc, state: O.State, h: Shared, pc: Pc, h': Shared, pc': Pc)
    requires pc.StartLoop? && opc.StartInBody? && state == O.Starting
    requires StartStep(t, immutable, h, pc, h', pc') && Good(immutable, opc, state, h.b, pc) == true
    ensures Good(immutable, opc, state, h'.b, pc') == true
  {
    if pc.todo == {} {
      LoopEnds(immutable, opc, state, h, pc, h', pc');
    } else if pc'.StartRollback? {
      RollbackBegins(immutable, opc, state, h, pc, h', pc');
    } else if ChosenStarted(h, pc.todo, pc.started, pc'.todo, pc'.started, h') {
      OneStarted(immutable, opc, state, h, pc, h', pc');
    } else {
      OneSkipped(immutable, opc, state, h, pc, h', pc');
    }
  }

  lemma OneRolledBack(immutable: bool, opc: O.Pc, state: O.State, h: Shared, pc: Pc, h': Shared, pc': Pc, ok: bool)
    requires pc.StartRollback? && pc.started != [] && opc.StartInBody? && state == O.Starting
    requires Good(immutable, opc, state, h.b, pc) == true
    requires pc' == StartRollback(pc.started[..|pc.started| - 1])
    requires pc.started[|pc.started| - 1] in h.b.ledger
    requires h'.b == Closed(h.b, pc.started[|pc.started| - 1], ok)
    ensures Good(immutable, opc, state, h'.b, pc') == true
  {
    RollbackStep(h.b, pc.started, ok);
  }

  lemma StartEnters(t: Tid, immutable: bool, opc: O.Pc, state: O.State, h: Shared, pc: Pc, h': Shared, pc': Pc)
    requires pc.StartLock? && opc.StartInBody? && state == O.Starting && Good(immutable, opc, state, h.b, pc) == true
    requires pc' == StartLoop(h.b.chains.Keys, []) && h'.b == h.b
    ensures Good(immutable, opc, state, h'.b, pc') == true
  {
  }

  lemma StartLeaves(immutable: bool, opc: O.Pc, state: O.State, h: Shared, pc: Pc, h': Shared, pc': Pc)
    requires opc.StartInBody? && state == O.Starting && Good(immutable, opc, state, h.b, pc) == true
    requires (pc == StartRollback([]) && pc' == StartUnlock(false) && h'.b == h.b.(phase := RolledBack)) ||
             (pc.StartUnlock? && pc' == BodyDone(pc.ok) && h'.b == h.b)
    ensures Good(immutable, opc, state, h'.b, pc') == true
  {
  }

  lemma StartMoves(t: Tid, immutable: bool, opc: O.Pc, state: O.State, h: Shared, pc: Pc, h': Shared, pc': Pc)
    requires opc.StartInBody? && state == O.Starting
    requires StartStep(t, immutable, h, pc, h', pc') && Good(immutable, opc, state, h.b, pc) == true
    ensures Good(immutable, opc, state, h'.b, pc') == true
  {
    if pc.StartLoop? {
      StartLoopMoves(t, immutable, opc, state, h, pc, h', pc');
    } else if pc.StartLock? {
      StartEnters(t, immutable, opc, state, h, pc, h', pc');
    } else if pc.StartRollback? && pc.started != [] {
      OneRolledBack(immutable, opc, state, h, pc, h', pc', h'.b == Closed(h.b, pc.started[|pc.started| - 1], true));
    } else {
      StartLeaves(immutable, opc, state, h, pc, h', pc');
    }
  }

  lemma CloseLoopStep(b: Books, todo: set<string>, ok: bool, id: string, closed: bool)
    requires LedgerFits(b) && b.phase == TearingDown && CloseFits(b, todo, ok) && id in todo
    ensures var b' := Closed(b, b.chains[id], closed);
            LedgerFits(b') && CloseFits(b', todo - {id}, ok && closed)
  {
    ClosedKept(b, b.chains[id], closed);
  }

  lemma QuietMeansOpen(b: Books)
    requires LedgerFits(b) && b.phase == Quiet
    ensures forall id | id in b.chains && b.chains[id] in b.ledger :: b.ledger[b.chains[id]].closes == 0
    ensures b.failed == {}
  {
    if b.failed != {} {
      var v := Member(b.failed);
      assert false;
    }
    forall id | id in b.chains && b.chains[id] in b.ledger
      ensures b.ledger[b.chains[id]].closes == 0
    {
      var v := b.chains[id];
      assert b.ledger[v].closes == 0;
    }
  }

  lemma TeardownBegins(t: Tid, immutable: bool, opc: O.Pc, state: O.State, h: Shared, pc: Pc, h': Shared, pc': Pc)
    requires pc.CloseLock? && opc.StopInBody? && state == O.Stopping && Good(immutable, opc, state, h.b, pc) == true
    requires pc' == CloseLoop(h.b.chains.Keys, true) && h'.b == h.b.(phase := TearingDown)
    ensures Good(immutable, opc, state, h'.b, pc') == true
  {
    QuietMeansOpen(h.b);
  }

  lemma ChosenClose(h: Shared, todo: set<string>, todo': set<string>, ok: bool, h': Shared) returns (id: string)
    requires ChosenClosed(h, todo, todo', ok, h')
    ensures id in todo && id in h.b.chains && h.b.chains[id] in h.b.ledger
    ensures todo' == todo - {id} && h' == h.(b := Closed(h.b, h.b.chains[id], ok))
  {
    id :| id in todo && id in h.b.chains && h.b.chains[id] in h.b.ledger &&
      todo' == todo - {id} && h' == h.(b := Closed(h.b, h.b.chains[id], ok));
  }

  lemma OneClosed(immutable: bool, opc: O.Pc, state: O.State, h: Shared, pc: Pc, h': Shared, pc': Pc, ok: bool)
    requires pc.CloseLoop? && opc.StopInBody? && state == O.Stopping && Good(immutable, opc, state, h.b, pc) == true
    requires pc'.CloseLoop? && ChosenClosed(h, pc.todo, pc'.todo, ok, h') && pc'.ok == (pc.ok && ok)
    ensures Good(immutable, opc, state, h'.b, pc') == true
  {
    var id := ChosenClose(h, pc.todo, pc'.todo, ok, h');
    CloseLoopStep(h.b, pc.todo, pc.ok, id, ok);
  }

  lemma TeardownEnds(immutable: bool, opc: O.Pc, state: O.State, h: Shared, pc: Pc, h': Shared, pc': Pc)
    requires opc.StopInBody? && state == O.Stopping && Good(immutable, opc, state, h.b, pc) == true
    requires (pc.CloseLoop? && pc.todo == {} && pc' == CloseUnlock(pc.ok) && h'.b == h.b.(phase := TornDown)) ||
             (pc.CloseUnlock? && pc' == BodyDone(pc.ok) && h'.b == h.b)
    ensures Good(immutable, opc, state, h'.b, pc') == true
  {
  }

  lemma CloseMoves(t: Tid, immutable: bool, opc: O.Pc, state: O.State, h: Shared, pc: Pc, h': Shared, pc': Pc)
    requires CloseStep(t, h, pc, h', pc') && Good(immutable, opc, state, h.b, pc) == true
    requires opc.StopInBody? && state == O.Stopping
    ensures Good(immutable, opc, state, h'.b, pc') == true
  {
    if pc.CloseLock? {
      TeardownBegins(t, immutable, opc, state, h, pc, h', pc');
    } else if pc.CloseLoop? && pc.todo != {} {
      var ok := pc'.ok || (!pc.ok && ChosenClosed(h, pc.todo, pc'.todo, true, h'));
      OneClosed(immutable, opc, state, h, pc, h', pc', ok);
    } else {
      TeardownEnds(immutable, opc, state, h, pc, h', pc');
    }
  }

  lemma LookMoves(t: Tid, immutable: bool, opc: O.Pc, state: O.State, h: Shared, pc: Pc, h': Shared, pc': Pc)
    requires LookStep(t, state, h, pc, h', pc') && Good(immutable, opc, state, h.b, pc) == true
    requires opc.Idle? || opc.Returned?
    ensures LockMove(t, h, pc, h', pc') && (Good(immutable, opc, state, h'.b, pc') == true)
  {
    LookLock(t, state, h, pc, h', pc');
  }

  /** A step inside Chain, or inside one of the two bodies. */
  lemma OwnMoves(t: Tid, immutable: bool, opc: O.Pc, state: O.State, h: Shared, pc: Pc, h': Shared, pc': Pc)
    requires Own(t, immutable, opc, state, h, pc, h', pc')
    requires Good(immutable, opc, state, h.b, pc) == true && O.Fits(opc, state)
    ensures LockMove(t, h, pc, h', pc') && (Good(immutable, opc, state, h'.b, pc') == true)
  {
    if opc.StartInBody? {
      StartLockMove(t, immutable, h, pc, h', pc');
      StartMoves(t, immutable, opc, state, h, pc, h', pc');
    } else if opc.StopInBody? {
      CloseLockMove(t, h, pc, h', pc');
      CloseMoves(t, immutable, opc, state, h, pc, h', pc');
    } else if !InMake(pc) {
      LookMoves(t, immutable, opc, state, h, pc, h', pc');
    } else {
      MakeLock(t, state, h, pc, h', pc');
      MakeMoves(t, immutable, opc, state, h, pc, h', pc');
    }
  }

  lemma StartGate(t: Tid, immutable: bool, g: O.Shared, opc: O.Pc, g': O.Shared, opc': O.Pc, b: Books, pc: Pc, pc': Pc)
    requires O.StartStep(t, g, opc, g', opc') && O.Fits(opc, g.state) == true && Pair(opc, pc) == true
    requires Gate(opc, opc', pc, pc') == true
    requires GuardFits(immutable, opc, b) == true && StateFits(immutable, g.state, b) == true
    requires pc.BodyDone? ==> Settled(immutable, b, pc.ok)
    ensures Fits(immutable, opc', g'.state, b, pc') && StateFits(immutable, g'.state, b)
  {
  }

  lemma StopGate(t: Tid, immutable: bool, g: O.Shared, opc: O.Pc, g': O.Shared, opc': O.Pc, b: Books, pc: Pc, pc': Pc)
    requires O.StopStep(t, g, opc, g', opc') && O.Fits(opc, g.state) == true && Pair(opc, pc) == true
    requires Gate(opc, opc', pc, pc') == true
    requires GuardFits(immutable, opc, b) == true && StateFits(immutable, g.state, b) == true
    requires pc.BodyDone? ==> b.phase == TornDown && pc.ok == (b.failed == {})
    ensures Fits(immutable, opc', g'.state, b, pc') && StateFits(immutable, g'.state, b)
  {
  }

  lemma PassGate(t: Tid, immutable: bool, g: O.Shared, opc: O.Pc, g': O.Shared, opc': O.Pc, b: Books, pc: Pc, pc': Pc)
    requires O.CallStep(g, opc, g', opc') || O.GuardStep(t, g, opc, g', opc')
    requires Gate(opc, opc', pc, pc') == true
    ensures g'.state == g.state && Fits(immutable, opc', g'.state, b, pc')
  {
  }

  /** A step of the guard: it enters or leaves a body, or passes by the set. */
  lemma GateMoves(t: Tid, immutable: bool, g: O.Shared, opc: O.Pc, g': O.Shared, opc': O.Pc, b: Books, pc: Pc, pc': Pc)
    requires O.Local(t, g, opc, g', opc') && O.Fits(opc, g.state) == true
    requires Gate(opc, opc', pc, pc') == true && Good(immutable, opc, g.state, b, pc) == true
    ensures Fits(immutable, opc', g'.state, b, pc') == true && StateFits(immutable, g'.state, b) == true
  {
    if O.StartStep(t, g, opc, g', opc') {
      StartGate(t, immutable, g, opc, g', opc', b, pc, pc');
    } else if O.StopStep(t, g, opc, g', opc') {
      StopGate(t, immutable, g, opc, g', opc', b, pc, pc');
    } else {
      PassGate(t, immutable, g, opc, g', opc', b, pc, pc');
    }
  }

  // ----- The callers that do not move -----

  lemma QuietStep(t: Tid, immutable: bool, opc: O.Pc, state: O.State, h: Shared, pc: Pc, h': Shared, pc': Pc)
    requires Own(t, immutable, opc, state, h, pc, h', pc') && !Writes(pc)
    ensures h'.b == h.b
  {
    if opc.StartInBody? {
      StartLockMove(t, immutable, h, pc, h', pc');
    } else if opc.StopInBody? {
      CloseLockMove(t, h, pc, h', pc');
    } else if !InMake(pc) {
      LookLock(t, state, h, pc, h', pc');
    } else {
      MakeLock(t, state, h, pc, h', pc');
    }
  }

  /** What two callers cannot both be at: `w` is about to write, `u` relies on what is written. */
  lemma WriterAlone(immutable: bool, state: O.State, b: Books, opc: O.Pc, pc: Pc, opcU: O.Pc, pcU: Pc)
    requires Writes(pc) && Fits(immutable, opc, state, b, pc) && Fits(immutable, opcU, state, b, pcU)
    requires O.Fits(opc, state) && O.Fits(opcU, state)
    requires !(O.HoldsWrite(opc) && O.HoldsWrite(opcU)) && !(O.IsStarter(opc) && O.IsStarter(opcU))
    requires HoldsWrite(pc) || pc.CloseLock? ==> !HoldsWrite(pcU)
    ensures !opcU.StartAtLock? && !opcU.StartAtPublish? && !opcU.StopAtPublish? && !IsMaking(pcU)
    ensures !InStart(pcU) && !pcU.BodyDone? && !pcU.CloseLoop? && !pcU.CloseUnlock?
    ensures pcU.CloseLock? ==> pc.AskNew? || pc.AskStart? || pc.AskInsert?
  {
  }

  lemma BystanderKept(t: Tid, immutable: bool, opc: O.Pc, state: O.State, h: Shared, pc: Pc, h': Shared, pc': Pc,
      opcU: O.Pc, pcU: Pc)
    requires Own(t, immutable, opc, state, h, pc, h', pc') && Fits(immutable, opc, state, h.b, pc)
    requires Fits(immutable, opcU, state, h.b, pcU) && O.Fits(opc, state) && O.Fits(opcU, state)
    requires !(O.HoldsWrite(opc) && O.HoldsWrite(opcU)) && !(O.IsStarter(opc) && O.IsStarter(opcU))
    requires HoldsWrite(pcU) ==> !HoldsWrite(pc) && !Free(h)
    ensures Fits(immutable, opcU, state, h'.b, pcU)
  {
    if !Writes(pc) {
      QuietStep(t, immutable, opc, state, h, pc, h', pc');
    } else {
      WriterAlone(immutable, state, h.b, opc, pc, opcU, pcU);
    }
  }

  /** The state does not leave Started and Stopping while nothing has been closed. */
  lemma LiveKept(immutable: bool, g: O.Shared, opc: O.Pc, g': O.Shared, opc': O.Pc, b: Books)
    requires O.StateMove(g, opc, g', opc') && GuardFits(immutable, opc, b)
    requires b.phase == Quiet && (g.state == O.Started || g.state == O.Stopping)
    ensures g'.state == O.Started || g'.state == O.Stopping
  {
  }

  lemma GuardPassesBy(immutable: bool, state: O.State, state': O.State, b: Books, opcU: O.Pc, pcU: Pc)
    requires Fits(immutable, opcU, state, b, pcU)
    requires IsMaking(pcU) ==> state' == O.Started || state' == O.Stopping
    ensures Fits(immutable, opcU, state', b, pcU)
  {
  }

  // ----- Steps of the set -----

  lemma LockKept(s: Sys, s': Sys, t: Tid)
    requires Inv(s) == true && Moves(s, s', t)
    requires LockMove(t, s.h, s.pcs[t], s'.h, s'.pcs[t]) == true
    ensures LockInv(s')
  {
  }

  lemma OwnStepKeepsFits(s: Sys, s': Sys, t: Tid)
    requires Inv(s) == true && OwnStep(s, s', t)
    ensures forall u | u in s'.pcs :: Fits(s.immutable, s.once.pcs[u], s.once.sh.state, s'.h.b, s'.pcs[u])
    ensures LedgerFits(s'.h.b) && StateFits(s.immutable, s.once.sh.state, s'.h.b)
    ensures LockMove(t, s.h, s.pcs[t], s'.h, s'.pcs[t]) == true
  {
    var state := s.once.sh.state;
    OwnMoves(t, s.immutable, s.once.pcs[t], state, s.h, s.pcs[t], s'.h, s'.pcs[t]);
    forall u | u in s.pcs && u != t
      ensures Fits(s.immutable, s.once.pcs[u], state, s'.h.b, s.pcs[u])
    {
      BystanderKept(t, s.immutable, s.once.pcs[t], state, s.h, s.pcs[t], s'.h, s'.pcs[t], s.once.pcs[u], s.pcs[u]);
    }
  }

  lemma GateStepMoves(s: Sys, s': Sys, t: Tid)
    requires Inv(s) == true && GateStep(s, s', t)
    ensures Fits(s.immutable, s'.once.pcs[t], s'.once.sh.state, s.h.b, s'.pcs[t]) == true
    ensures StateFits(s.immutable, s'.once.sh.state, s.h.b) == true
  {
    GateMoves(t, s.immutable, s.once.sh, s.once.pcs[t], s'.once.sh, s'.once.pcs[t], s.h.b, s.pcs[t], s'.pcs[t]);
  }

  lemma GateStepLock(s: Sys, s': Sys, t: Tid)
    requires Inv(s) == true && GateStep(s, s', t)
    ensures LockMove(t, s.h, s.pcs[t], s'.h, s'.pcs[t]) == true
  {
  }

  lemma GateStepPassesBy(s: Sys, s': Sys, t: Tid, u: Tid)
    requires Inv(s) == true && GateStep(s, s', t) && u in s.pcs && u != t
    ensures Fits(s.immutable, s.once.pcs[u], s'.once.sh.state, s.h.b, s.pcs[u])
  {
    if IsMaking(s.pcs[u]) {
      O.StepMoves(s.once, s'.once, t);
      LiveKept(s.immutable, s.once.sh, s.once.pcs[t], s'.once.sh, s'.once.pcs[t], s.h.b);
    }
    GuardPassesBy(s.immutable, s.once.sh.state, s'.once.sh.state, s.h.b, s.once.pcs[u], s.pcs[u]);
  }

  lemma GateStepKeepsFits(s: Sys, s': Sys, t: Tid)
    requires Inv(s) == true && GateStep(s, s', t)
    ensures forall u | u in s'.pcs :: Fits(s.immutable, s'.once.pcs[u], s'.once.sh.state, s.h.b, s'.pcs[u])
  {
    GateStepMoves(s, s', t);
    forall u | u in s.pcs && u != t
      ensures Fits(s.immutable, s.once.pcs[u], s'.once.sh.state, s.h.b, s.pcs[u])
    {
      GateStepPassesBy(s, s', t, u);
    }
  }

  /** A service that runs after a step ran before it, or is in the map, or is about to be put there. */
  predicate NoneLost(b: Books, pc: Pc, b': Books, pc': Pc, v: Svc)
    requires v in b'.ledger
  {
    && (b'.ledger[v].starts > 0 ==>
          || (v in b.ledger && b.ledger[v].starts > 0)
          || Homed(b', v)
          || pc' == AskInsert(b'.ledger[v].id, v))
    && (v in b.ledger ==>
          && b'.ledger[v].id == b.ledger[v].id
          && (Homed(b, v) ==> Homed(b', v))
          && (pc == AskInsert(b.ledger[v].id, v) ==> Homed(b', v)))
  }

  lemma MakeLosesNone(t: Tid, state: O.State, h: Shared, pc: Pc, h': Shared, pc': Pc, v: Svc)
    requires MakeStep(t, state, h, pc, h', pc') && Writes(pc) && MakingFits(state, h.b, pc) && v in h'.b.ledger
    ensures NoneLost(h.b, pc, h'.b, pc', v) == true
  {
  }

  lemma StartLosesNone(t: Tid, immutable: bool, h: Shared, pc: Pc, h': Shared, pc': Pc, v: Svc)
    requires StartStep(t, immutable, h, pc, h', pc') == true && LedgerFits(h.b) && v in h'.b.ledger
    ensures NoneLost(h.b, pc, h'.b, pc', v) == true
  {
  }

  lemma CloseLosesNone(t: Tid, h: Shared, pc: Pc, h': Shared, pc': Pc, v: Svc)
    requires CloseStep(t, h, pc, h', pc') == true && v in h'.b.ledger
    ensures NoneLost(h.b, pc, h'.b, pc', v) == true
  {
  }

  lemma SameBooksLoseNone(b: Books, pc: Pc, pc': Pc, v: Svc)
    requires v in b.ledger && !pc.AskInsert?
    ensures NoneLost(b, pc, b, pc', v) == true
  {
  }

  lemma OwnLosesNone(t: Tid, immutable: bool, opc: O.Pc, state: O.State, h: Shared, pc: Pc, h': Shared, pc': Pc, v: Svc)
    requires Own(t, immutable, opc, state, h, pc, h', pc') == true && LedgerFits(h.b) == true && v in h'.b.ledger
    requires IsMaking(pc) ==> MakingFits(state, h.b, pc)
    ensures NoneLost(h.b, pc, h'.b, pc', v) == true
  {
    if !Writes(pc) {
      QuietStep(t, immutable, opc, state, h, pc, h', pc');
      SameBooksLoseNone(h.b, pc, pc', v);
    } else if opc.StartInBody? {
      StartLosesNone(t, immutable, h, pc, h', pc', v);
    } else if opc.StopInBody? {
      CloseLosesNone(t, h, pc, h', pc', v);
    } else {
      WriterMakes(t, state, h, pc, h', pc');
      MakeLosesNone(t, state, h, pc, h', pc', v);
    }
  }

  lemma WriterMakes(t: Tid, state: O.State, h: Shared, pc: Pc, h': Shared, pc': Pc)
    requires Writes(pc)
    requires if InMake(pc) then MakeStep(t, state, h, pc, h', pc') else LookStep(t, state, h, pc, h', pc')
    ensures InMake(pc) && IsMaking(pc)
  {
  }

  lemma NoOrphanKept(s: Sys, s': Sys, t: Tid)
    requires Inv(s) == true && OwnStep(s, s', t)
    ensures NoOrphan(s')
  {
    forall v | v in s'.h.b.ledger && s'.h.b.ledger[v].starts > 0
      ensures Homed(s'.h.b, v) || exists u :: Inserting(s', u, v)
    {
      OwnLosesNone(t, s.immutable, s.once.pcs[t], s.once.sh.state, s.h, s.pcs[t], s'.h, s'.pcs[t], v);
      if !Homed(s'.h.b, v) {
        if v in s.h.b.ledger && s.h.b.ledger[v].starts > 0 {
          var u :| Inserting(s, u, v);
          assert Inserting(s', u, v);
        } else {
          assert Inserting(s', t, v);
        }
      }
    }
  }

  lemma GateKeepsNoOrphan(s: Sys, s': Sys, t: Tid)
    requires NoOrphan(s) && GateStep(s, s', t)
    ensures NoOrphan(s')
  {
    forall v | v in s.h.b.ledger && s.h.b.ledger[v].starts > 0 && !Homed(s.h.b, v)
      ensures exists u :: Inserting(s', u, v)
    {
      var u :| Inserting(s, u, v);
      assert Inserting(s', u, v);
    }
  }

  lemma GateStepKeepsInv(s: Sys, s': Sys, t: Tid)
    requires Inv(s) == true && GateStep(s, s', t)
    ensures Inv(s')
  {
    O.StepKeepsInv(s.once, s'.once, t);
    GateStepMoves(s, s', t);
    GateStepKeepsFits(s, s', t);
    GateKeepsNoOrphan(s, s', t);
    GateStepLock(s, s', t);
    LockKept(s, s', t);
  }

  lemma OwnStepKeepsInv(s: Sys, s': Sys, t: Tid)
    requires Inv(s) == true && OwnStep(s, s', t)
    ensures Inv(s')
  {
    OwnStepKeepsFits(s, s', t);
    NoOrphanKept(s, s', t);
    LockKept(s, s', t);
  }

  lemma StepKeepsInv(s: Sys, s': Sys, t: Tid)
    requires Inv(s) && Step(s, s', t)
    ensures Inv(s')
  {
    if GateStep(s, s', t) {
      GateStepKeepsInv(s, s', t);
    } else {
      OwnStepKeepsInv(s, s', t);
    }
  }

  // ----- Every run -----

  lemma InitLedger(s: Sys)
    requires Init(s)
    ensures LedgerFits(s.h.b) && StateFits(s.immutable, O.Unstarted, s.h.b)
    ensures forall v | v in s.h.b.ledger :: s.h.b.ledger[v].starts == 0
  {
    assert forall v | v in s.h.b.ledger :: s.h.b.ledger[s.h.b.chains[s.h.b.ledger[v].id]] == s.h.b.ledger[v];
  }

  lemma InitInv(s: Sys)
    requires Init(s)
    ensures Inv(s)
  {
    InitLedger(s);
  }

  lemma {:induction false} RunInv(r: seq<Sys>, i: nat)
    requires IsRun(r) && i < |r|
    ensures Inv(r[i])
  {
    if i == 0 {
      InitInv(r[0]);
    } else {
      RunInv(r, i - 1);
      assert Next(r[i - 1], r[i]);
      var t :| Step(r[i - 1], r[i], t);
      StepKeepsInv(r[i - 1], r[i], t);
    }
  }

  predicate Live(b: Books, v: Svc) {
    v in b.ledger && b.ledger[v].starts > b.ledger[v].closes
  }

  lemma InserterOf(s: Sys, v: Svc) returns (t: Tid)
    requires Inv(s) && v in s.h.b.ledger && s.h.b.ledger[v].starts > 0 && !Homed(s.h.b, v)
    ensures Inserting(s, t, v) && s.h.writer == Some(t) && s.h.b.ledger[v].id !in s.h.b.chains && s.h.b.phase == Quiet
  {
    t :| Inserting(s, t, v);
    assert HoldsWrite(s.pcs[t]);
  }

  /** No orphans: whenever chainsMu is free, every service that was ever started is in the map under its id. */
  lemma StartedIsInMap(r: seq<Sys>, i: nat, v: Svc)
    requires IsRun(r) && i < |r| && v in r[i].h.b.ledger && r[i].h.b.ledger[v].starts > 0
    ensures r[i].h.writer.None? ==> Homed(r[i].h.b, v)
    ensures Homed(r[i].h.b, v) || exists t :: r[i].h.writer == Some(t) && Inserting(r[i], t, v)
  {
    RunInv(r, i);
    if !Homed(r[i].h.b, v) {
      var t := InserterOf(r[i], v);
    }
  }

  /** Racing callers never leave two running services for one chain, and no service is started or closed twice. */
  lemma OneLivePerChain(r: seq<Sys>, i: nat, v: Svc, w: Svc)
    requires IsRun(r) && i < |r| && v in r[i].h.b.ledger && w in r[i].h.b.ledger
    ensures r[i].h.b.ledger[v].starts <= 1 && r[i].h.b.ledger[v].closes <= 1
    ensures Live(r[i].h.b, v) && Live(r[i].h.b, w) && r[i].h.b.ledger[v].id == r[i].h.b.ledger[w].id ==> v == w
  {
    RunInv(r, i);
    var s := r[i];
    if Live(s.h.b, v) && Live(s.h.b, w) && s.h.b.ledger[v].id == s.h.b.ledger[w].id {
      if !Homed(s.h.b, v) {
        var t := InserterOf(s, v);
        if !Homed(s.h.b, w) {
          var u := InserterOf(s, w);
        }
      } else if !Homed(s.h.b, w) {
        var u := InserterOf(s, w);
      }
    }
  }

  // ----- What Chain answers -----

  predicate IsHome(b: Books, id: string, v: Svc) {
    id in b.chains && b.chains[id] == v
  }

  /** A service that Chain has found or made is the one in the map. */
  predicate Answers(b: Books, pc: Pc) {
    match pc
    case AskRUnlock(id, found) => found.Some? ==> IsHome(b, id, found.value)
    case AskUnlock(id, result) => result.Some? ==> IsHome(b, id, result.value)
    case AskReturned(id, result) => result.Some? ==> IsHome(b, id, result.value)
    case _ => true
  }

  /** No entry of the map is ever replaced or removed. */
  predicate Grows(b: Books, b': Books) {
    forall id | id in b.chains :: id in b'.chains && b'.chains[id] == b.chains[id]
  }

  lemma LookAnswers(t: Tid, state: O.State, h: Shared, pc: Pc, h': Shared, pc': Pc)
    requires LookStep(t, state, h, pc, h', pc') && Answers(h.b, pc)
    ensures h'.b == h.b && Answers(h'.b, pc')
  {
  }

  lemma MakeAnswers(t: Tid, state: O.State, h: Shared, pc: Pc, h': Shared, pc': Pc)
    requires MakeStep(t, state, h, pc, h', pc') && Answers(h.b, pc) && (pc.AskInsert? ==> pc.id !in h.b.chains)
    ensures Grows(h.b, h'.b) && Answers(h'.b, pc')
  {
  }

  lemma BodiesAnswer(t: Tid, immutable: bool, h: Shared, pc: Pc, h': Shared, pc': Pc)
    requires StartStep(t, immutable, h, pc, h', pc') || CloseStep(t, h, pc, h', pc')
    ensures h'.b.chains == h.b.chains && Answers(h'.b, pc')
  {
  }

  lemma OwnAnswers(t: Tid, immutable: bool, opc: O.Pc, state: O.State, h: Shared, pc: Pc, h': Shared, pc': Pc)
    requires Own(t, immutable, opc, state, h, pc, h', pc') && Answers(h.b, pc)
    requires pc.AskInsert? ==> pc.id !in h.b.chains
    ensures Grows(h.b, h'.b) && Answers(h'.b, pc')
  {
    if opc.StartInBody? || opc.StopInBody? {
      BodiesAnswer(t, immutable, h, pc, h', pc');
    } else if InMake(pc) {
      MakeAnswers(t, state, h, pc, h', pc');
    } else {
      LookAnswers(t, state, h, pc, h', pc');
    }
  }

  ghost predicate AnswersInv(s: Sys) {
    forall t | t in s.pcs :: Answers(s.h.b, s.pcs[t])
  }

  lemma AnswerStays(b: Books, b': Books, pc: Pc)
    requires Answers(b, pc) && Grows(b, b')
    ensures Answers(b', pc)
  {
  }

  lemma InsertIsNew(s: Sys, t: Tid)
    requires Inv(s) && t in s.pcs && s.pcs[t].AskInsert?
    ensures s.pcs[t].id !in s.h.b.chains
  {
  }

  lemma StepAnswers(s: Sys, s': Sys, t: Tid)
    requires Inv(s) == true && AnswersInv(s) && Step(s, s', t)
    ensures AnswersInv(s') && Grows(s.h.b, s'.h.b)
  {
    if GateStep(s, s', t) {
      GateAnswers(s, s', t);
    } else {
      OwnStepAnswers(s, s', t);
      forall u | u in s.pcs && u != t
        ensures Answers(s'.h.b, s.pcs[u])
      {
        AnswerStays(s.h.b, s'.h.b, s.pcs[u]);
      }
    }
  }

  lemma GateAnswers(s: Sys, s': Sys, t: Tid)
    requires AnswersInv(s) && GateStep(s, s', t)
    ensures AnswersInv(s') && Grows(s.h.b, s'.h.b)
  {
  }

  lemma OwnStepAnswers(s: Sys, s': Sys, t: Tid)
    requires Inv(s) == true && AnswersInv(s) && OwnStep(s, s', t)
    ensures Answers(s'.h.b, s'.pcs[t]) && Grows(s.h.b, s'.h.b)
  {
    if s.pcs[t].AskInsert? {
      InsertIsNew(s, t);
    }
    OwnAnswers(t, s.immutable, s.once.pcs[t], s.once.sh.state, s.h, s.pcs[t], s'.h, s'.pcs[t]);
  }

  lemma NextAnswers(r: seq<Sys>, k: nat)
    requires IsRun(r) && k + 1 < |r| && AnswersInv(r[k])
    ensures AnswersInv(r[k + 1]) && Grows(r[k].h.b, r[k + 1].h.b)
  {
    RunInv(r, k);
    assert Next(r[k], r[k + 1]);
    var t :| Step(r[k], r[k + 1], t);
    StepAnswers(r[k], r[k + 1], t);
  }

  lemma {:induction false} RunAnswers(r: seq<Sys>, i: nat)
    requires IsRun(r) && i < |r|
    ensures AnswersInv(r[i])
  {
    if i == 0 {
    } else {
      RunAnswers(r, i - 1);
      NextAnswers(r, i - 1);
    }
  }

  lemma {:induction false} RunGrows(r: seq<Sys>, i: nat, j: nat)
    requires IsRun(r) && i <= j < |r|
    ensures Grows(r[i].h.b, r[j].h.b)
    decreases j - i
  {
    if i == j {
    } else {
      RunAnswers(r, i);
      NextAnswers(r, i);
      RunGrows(r, i + 1, j);
    }
  }

  /** All callers of Chain that are answered with a service for one id are answered with the same one, at any times. */
  lemma AnswersAgree(r: seq<Sys>, i: nat, j: nat, t: Tid, u: Tid, id: string, v: Svc, w: Svc)
    requires IsRun(r) && i <= j < |r| && t in r[i].pcs && u in r[j].pcs
    requires r[i].pcs[t] == AskReturned(id, Some(v)) && r[j].pcs[u] == AskReturned(id, Some(w))
    ensures v == w
  {
    RunAnswers(r, i);
    RunAnswers(r, j);
    RunGrows(r, i, j);
    assert Answers(r[i].h.b, r[i].pcs[t]) && Answers(r[j].h.b, r[j].pcs[u]);
  }

  // ----- The two locks do not block each other -----

  /** In the middle of a call of Chain, Start or Close, or of another method of the guard. */
  predicate IsBusy(opc: O.Pc, pc: Pc) {
    !((opc.Idle? || opc.Returned?) && (pc.Out? || pc.AskReturned?))
  }

  ghost predicate CanGoOn(s: Sys, t: Tid) {
    && t in s.pcs && t in s.once.pcs && IsBusy(s.once.pcs[t], s.pcs[t])
    && exists s' :: Step(s, s', t)
  }

  lemma MakerCan(t: Tid, state: O.State, h: Shared, pc: Pc) returns (h': Shared, pc': Pc)
    requires HoldsForMake(pc) || pc.AskUnlock? || (pc.AskLock? && Free(h))
    ensures MakeStep(t, state, h, pc, h', pc')
  {
    h' := h;
    match pc
    case AskLock(id) => pc', h' := AskReadyAgain(id), h.(writer := Some(t));
    case AskReadyAgain(id) => pc' := if state == O.Started then AskLookup(id) else AskUnlock(id, None);
    case AskLookup(id) => pc' := if id in h.b.chains then AskUnlock(id, Some(h.b.chains[id])) else AskLoad(id);
    case AskInsert(id, v) => pc', h' := AskUnlock(id, Some(v)), h.(b := h.b.(chains := h.b.chains[id := v]));
    case AskUnlock(id, result) => pc', h' := AskReturned(id, result), h.(writer := None);
    case AskLoad(id) => pc' := AskUnlock(id, None);
    case AskNew(id) => pc' := AskUnlock(id, None);
    case AskStart(id, v) => pc', h' := AskUnlock(id, None), h.(b := NotStarted(h.b, v));
  }

  lemma LookerCan(t: Tid, state: O.State, h: Shared, pc: Pc) returns (h': Shared, pc': Pc)
    requires InAsk(pc) && !InMake(pc) && (pc.AskRLock? ==> h.writer.None?)
    ensures LookStep(t, state, h, pc, h', pc')
  {
    h' := h;
    match pc
    case AskReady(id) => pc' := if state == O.Started then AskRLock(id) else AskReturned(id, None);
    case AskRLock(id) => pc', h' := AskRead(id), h.(readers := h.readers + {t});
    case AskRead(id) => pc' := AskRUnlock(id, if id in h.b.chains then Some(h.b.chains[id]) else None);
    case AskRUnlock(id, found) =>
      pc', h' := if found.Some? then AskReturned(id, found) else AskLock(id), h.(readers := h.readers - {t});
  }

  lemma StarterCan(t: Tid, immutable: bool, h: Shared, pc: Pc) returns (h': Shared, pc': Pc)
    requires InStart(pc) && (pc.StartLock? ==> Free(h))
    requires pc.StartRollback? ==> forall v | v in pc.started :: v in h.b.ledger
    requires pc.StartLoop? ==> pc.todo <= h.b.chains.Keys
    ensures StartStep(t, immutable, h, pc, h', pc')
  {
    h' := h;
    match pc
    case StartLock => pc', h' := StartLoop(h.b.chains.Keys, []), h.(writer := Some(t));
    case StartLoop(todo, started) =>
      if todo == {} {
        pc' := StartUnlock(true);
      } else {
        var id :| id in todo;
        var b := NotStarted(h.b, h.b.chains[id]);
        if immutable {
          pc', h' := StartRollback(started), h.(b := b.(phase := RollingBack));
        } else {
          pc', h' := StartLoop(todo - {id}, started), h.(b := b);
        }
      }
    case StartRollback(started) =>
      if started == [] {
        pc', h' := StartUnlock(false), h.(b := h.b.(phase := RolledBack));
      } else {
        pc', h' := StartRollback(started[..|started| - 1]), h.(b := Closed(h.b, started[|started| - 1], true));
      }
    case StartUnlock(ok) => pc', h' := BodyDone(ok), h.(writer := None);
  }

  lemma CloserCan(t: Tid, h: Shared, pc: Pc) returns (h': Shared, pc': Pc)
    requires InClose(pc) && (pc.CloseLock? ==> Free(h))
    requires pc.CloseLoop? ==> forall id | id in pc.todo :: id in h.b.chains && h.b.chains[id] in h.b.ledger
    ensures CloseStep(t, h, pc, h', pc')
  {
    h' := h;
    match pc
    case CloseLock =>
      pc', h' := CloseLoop(h.b.chains.Keys, true), h.(writer := Some(t), b := h.b.(phase := TearingDown));
    case CloseLoop(todo, ok) =>
      if todo == {} {
        pc', h' := CloseUnlock(ok), h.(b := h.b.(phase := TornDown));
      } else {
        var id :| id in todo;
        pc', h' := CloseLoop(todo - {id}, ok), h.(b := Closed(h.b, h.b.chains[id], true));
      }
    case CloseUnlock(ok) => pc', h' := BodyDone(ok), h.(writer := None);
  }

  /** Inside the set, and not waiting for chainsMu. */
  predicate Unblocked(h: Shared, pc: Pc) {
    && (InAsk(pc) || InStart(pc) || InClose(pc))
    && (pc.AskRLock? ==> h.writer.None?)
    && (pc.AskLock? || pc.StartLock? || pc.CloseLock? ==> Free(h))
  }

  /** What the bodies of Start and Close find in the map, they find in the ledger. */
  lemma BodiesCan(immutable: bool, opc: O.Pc, state: O.State, b: Books, pc: Pc)
    requires Good(immutable, opc, state, b, pc) == true
    ensures pc.StartLoop? ==> pc.todo <= b.chains.Keys
    ensures pc.StartRollback? ==> forall v | v in pc.started :: v in b.ledger
    ensures pc.CloseLoop? ==> forall id | id in pc.todo :: id in b.chains && b.chains[id] in b.ledger
  {
  }

  lemma OwnCan(s: Sys, t: Tid)
    requires Inv(s) == true && t in s.pcs && Unblocked(s.h, s.pcs[t])
    ensures CanGoOn(s, t)
  {
    var opc, pc, h, state := s.once.pcs[t], s.pcs[t], s.h, s.once.sh.state;
    var h', pc' := h, pc;
    assert Fits(s.immutable, opc, state, h.b, pc) == true;
    BodiesCan(s.immutable, opc, state, h.b, pc);
    if InStart(pc) {
      h', pc' := StarterCan(t, s.immutable, h, pc);
    } else if InClose(pc) {
      h', pc' := CloserCan(t, h, pc);
    } else if InMake(pc) {
      h', pc' := MakerCan(t, state, h, pc);
    } else {
      h', pc' := LookerCan(t, state, h, pc);
    }
    var s' := s.(h := h', pcs := s.pcs[t := pc']);
    assert OwnStep(s, s', t);
    assert Step(s, s', t);
  }

  predicate NeedsGuardLock(opc: O.Pc) {
    opc.StartAtLock? || opc.StopAtLock? || opc.IfStartedAtLock? || opc.IfNotStoppedAtLock?
  }

  lemma GuardCan(t: Tid, g: O.Shared, opc: O.Pc) returns (g': O.Shared, opc': O.Pc)
    requires !opc.Idle? && !opc.Returned? && !opc.Panicked? && !opc.StartInBody? && !opc.StopInBody?
    requires O.Fits(opc, g.state) && (NeedsGuardLock(opc) ==> O.Free(g))
    ensures O.Local(t, g, opc, g', opc') && !opc'.Idle?
  {
    g' := g;
    match opc
    case StartAtCas =>
      if g.state == O.Unstarted {
        g', opc' := g.(state := O.Starting), O.StartAtLock;
      } else {
        opc' := O.StartAtReport;
      }
    case StartAtReport => opc' := O.Returned(O.AlreadyStarted(g.state));
    case StartAtLock => g', opc' := g.(writer := Some(t), log := g.log + [O.StartBegan(t)]), O.StartInBody;
    case StartAtPublish(ok) =>
      g', opc' := g.(state := if ok then O.Started else O.StartFailed), O.StartAtUnlock(ok);
    case StartAtUnlock(ok) => g', opc' := g.(writer := None), O.Returned(O.StartReturned(ok));
    case StopAtLock => g', opc' := g.(writer := Some(t)), O.StopAtCas;
    case StopAtCas =>
      if g.state == O.Started {
        g', opc' := g.(state := O.Stopping, log := g.log + [O.StopBegan(t)]), O.StopInBody;
      } else {
        opc' := O.StopAtLoad;
      }
    case StopAtLoad => opc' := O.StopAtUnlock(O.RejectedStop(g.state));
    case StopAtPublish(ok) =>
      g', opc' := g.(state := if ok then O.Stopped else O.StopFailed), O.StopAtUnlock(O.StopReturned(ok));
    case StopAtUnlock(result) => g', opc' := g.(writer := None), O.Returned(result);
    case IfStartedAtLock => g', opc' := g.(readers := g.readers + {t}), O.IfStartedAtLoad;
    case IfStartedAtLoad => opc' := if g.state == O.Started then O.IfStartedInBody else O.GuardAtUnlock(false);
    case IfStartedInBody => opc' := O.GuardAtUnlock(true);
    case IfNotStoppedAtLock => g', opc' := g.(readers := g.readers + {t}), O.IfNotStoppedAtLoad;
    case IfNotStoppedAtLoad => opc' := if g.state == O.Stopped then O.GuardAtUnlock(false) else O.IfNotStoppedInBody;
    case IfNotStoppedInBody => opc' := O.GuardAtUnlock(true);
    case GuardAtUnlock(ran) => g', opc' := g.(readers := g.readers - {t}), O.Returned(O.Guarded(ran));
  }

  /** A body that is done goes back to the guard. */
  lemma BodyCanEnd(s: Sys, t: Tid)
    requires Inv(s) == true && t in s.pcs && s.pcs[t].BodyDone?
    ensures CanGoOn(s, t)
  {
    var g, opc, ok := s.once.sh, s.once.pcs[t], s.pcs[t].ok;
    assert Fits(s.immutable, opc, g.state, s.h.b, s.pcs[t]);
    var g', opc' := g.(log := g.log + [O.StartEnded(t, ok)]), O.StartAtPublish(ok);
    if opc.StopInBody? {
      g', opc' := g.(log := g.log + [O.StopEnded(t, ok)]), O.StopAtPublish(ok);
    }
    var once' := s.once.(sh := g', pcs := s.once.pcs[t := opc']);
    assert O.Step(s.once, once', t);
    var s' := s.(once := once', pcs := s.pcs[t := Out]);
    assert GateStep(s, s', t);
    assert Step(s, s', t);
  }

  /** Between the bodies, when the lock of the guard is free or not needed. */
  lemma GateCan(s: Sys, t: Tid)
    requires Inv(s) == true && t in s.pcs && (s.pcs[t].Out? || s.pcs[t].AskReturned?)
    requires !s.once.pcs[t].Idle? && !s.once.pcs[t].Returned? && (NeedsGuardLock(s.once.pcs[t]) ==> O.Free(s.once.sh))
    ensures CanGoOn(s, t)
  {
    var g, opc, pc := s.once.sh, s.once.pcs[t], s.pcs[t];
    assert Fits(s.immutable, opc, g.state, s.h.b, pc) && O.Fits(opc, g.state);
    var g', opc' := GuardCan(t, g, opc);
    var once' := s.once.(sh := g', pcs := s.once.pcs[t := opc']);
    var pc' := if opc'.StartInBody? then StartLock else if opc'.StopInBody? then CloseLock else pc;
    assert O.Step(s.once, once', t);
    var s' := s.(once := once', pcs := s.pcs[t := pc']);
    assert GateStep(s, s', t);
    assert Step(s, s', t);
  }

  /** While chainsMu is free, who does not wait for the lock of the guard can go on. */
  lemma FreeCan(s: Sys, t: Tid)
    requires Inv(s) == true && t in s.pcs && Free(s.h) && IsBusy(s.once.pcs[t], s.pcs[t])
    requires NeedsGuardLock(s.once.pcs[t]) ==> O.Free(s.once.sh)
    ensures CanGoOn(s, t)
  {
    var pc := s.pcs[t];
    if pc.BodyDone? {
      BodyCanEnd(s, t);
    } else if pc.Out? || pc.AskReturned? {
      GateCan(s, t);
    } else {
      OwnCan(s, t);
    }
  }

  lemma Member<T>(ts: set<T>) returns (t: T)
    requires ts != {}
    ensures t in ts
  {
    t :| t in ts;
  }

  /** The holder of the lock of the guard is busy and does not wait for that lock. */
  lemma GuardHolder(s: Sys) returns (x: Tid)
    requires Inv(s) == true && !O.Free(s.once.sh)
    ensures x in s.pcs && IsBusy(s.once.pcs[x], s.pcs[x]) && !NeedsGuardLock(s.once.pcs[x])
  {
    if s.once.sh.writer.Some? {
      x := s.once.sh.writer.value;
      assert x in s.once.pcs && O.HoldsWrite(s.once.pcs[x]);
    } else {
      x := Member(s.once.sh.readers);
      assert x in s.once.pcs && O.HoldsRead(s.once.pcs[x]);
    }
  }

  lemma SetHolder(s: Sys) returns (x: Tid)
    requires Inv(s) == true && !Free(s.h)
    ensures x in s.pcs && Unblocked(s.h, s.pcs[x]) && (HoldsWrite(s.pcs[x]) || HoldsRead(s.pcs[x]))
  {
    if s.h.writer.Some? {
      x := s.h.writer.value;
      assert x in s.pcs && HoldsWrite(s.pcs[x]);
    } else {
      x := Member(s.h.readers);
      assert x in s.pcs && HoldsRead(s.pcs[x]);
    }
  }

  ghost predicate WaitsToWriteSet(s: Sys, w: Tid) {
    w in s.pcs && (s.pcs[w].AskLock? || s.pcs[w].StartLock? || s.pcs[w].CloseLock?)
  }

  ghost predicate WaitsToWriteGuard(s: Sys, w: Tid) {
    w in s.once.pcs && (s.once.pcs[w].StartAtLock? || s.once.pcs[w].StopAtLock?)
  }

  /** A reader that a lock may keep waiting because a writer waits for it, although the lock is not held for writing. */
  ghost predicate HeldBack(s: Sys, t: Tid)
    requires t in s.pcs && t in s.once.pcs
  {
    || (s.pcs[t].AskRLock? && exists w :: WaitsToWriteSet(s, w))
    || ((s.once.pcs[t].IfStartedAtLock? || s.once.pcs[t].IfNotStoppedAtLock?) && exists w :: WaitsToWriteGuard(s, w))
  }

  ghost predicate CanGoOnNow(s: Sys, t: Tid) {
    CanGoOn(s, t) && !HeldBack(s, t)
  }

  lemma SetHolderGoesOn(s: Sys) returns (x: Tid)
    requires Inv(s) == true && !Free(s.h)
    ensures CanGoOnNow(s, x)
  {
    x := SetHolder(s);
    assert Fits(s.immutable, s.once.pcs[x], s.once.sh.state, s.h.b, s.pcs[x]);
    OwnCan(s, x);
  }

  lemma SetWriterGoesOn(s: Sys, w: Tid)
    requires Inv(s) == true && Free(s.h) && WaitsToWriteSet(s, w)
    ensures CanGoOnNow(s, w)
  {
    assert Fits(s.immutable, s.once.pcs[w], s.once.sh.state, s.h.b, s.pcs[w]);
    OwnCan(s, w);
  }

  lemma GuardHolderGoesOn(s: Sys) returns (x: Tid)
    requires Inv(s) == true && Free(s.h) && !O.Free(s.once.sh) && !exists w :: WaitsToWriteSet(s, w)
    ensures CanGoOnNow(s, x)
  {
    x := GuardHolder(s);
    FreeCan(s, x);
  }

  lemma GuardWriterGoesOn(s: Sys, w: Tid)
    requires Inv(s) == true && Free(s.h) && O.Free(s.once.sh) && WaitsToWriteGuard(s, w)
    requires !exists u :: WaitsToWriteSet(s, u)
    ensures CanGoOnNow(s, w)
  {
    FreeCan(s, w);
  }

  /** Start and Close hold the lock of the guard while they wait for chainsMu, and Chain reads the state of the guard
      while it holds chainsMu; yet in every reachable state in which some call is under way, some call can go on, even
      if both locks keep readers waiting as soon as a writer waits. */
  lemma NoDeadlock(r: seq<Sys>, i: nat, t: Tid)
    requires IsRun(r) && i < |r| && t in r[i].pcs && t in r[i].once.pcs && IsBusy(r[i].once.pcs[t], r[i].pcs[t])
    ensures exists u :: CanGoOnNow(r[i], u)
  {
    RunInv(r, i);
    var s := r[i];
    if !Free(s.h) {
      var x := SetHolderGoesOn(s);
    } else if w :| WaitsToWriteSet(s, w) {
      SetWriterGoesOn(s, w);
    } else if NeedsGuardLock(s.once.pcs[t]) && !O.Free(s.once.sh) {
      var x := GuardHolderGoesOn(s);
    } else if w :| O.Free(s.once.sh) && WaitsToWriteGuard(s, w) {
      GuardWriterGoesOn(s, w);
    } else {
      FreeCan(s, t);
      assert CanGoOnNow(s, t);
    }
  }

  // ----- What Start and Close have done -----

  /** Started means that the Start of every chain in the map was called, whatever it returned. */
  lemma StartedMeansTried(r: seq<Sys>, i: nat, id: string)
    requires IsRun(r) && i < |r| && r[i].once.sh.state == O.Started && id in r[i].h.b.chains
    ensures r[i].h.b.chains[id] in r[i].h.b.tried
  {
    RunInv(r, i);
  }

  /** A caller that closed the set was told of an error exactly if the Close of some service returned one; each service
      in the map was closed once. */
  lemma CloseTellsErrors(r: seq<Sys>, i: nat, u: Tid, ok: bool)
    requires IsRun(r) && i < |r| && u in r[i].once.pcs && r[i].once.pcs[u] == O.Returned(O.StopReturned(ok))
    ensures ok == (r[i].h.b.failed == {})
    ensures forall v | v in r[i].h.b.failed :: v in r[i].h.b.ledger && r[i].h.b.ledger[v].closes == 1
    ensures forall id | id in r[i].h.b.chains ::
              r[i].h.b.chains[id] in r[i].h.b.ledger && r[i].h.b.ledger[r[i].h.b.chains[id]].closes == 1
  {
    RunInv(r, i);
    assert O.Fits(r[i].once.pcs[u], r[i].once.sh.state);
  }

  // ----- After the end -----

  /** A set whose closing is over: by teardown, or by the rollback of a failed start. */
  predicate IsOver(b: Books) {
    b.phase == TornDown || b.phase == RolledBack
  }

  lemma NoWriterWhenOver(immutable: bool, opc: O.Pc, state: O.State, b: Books, pc: Pc)
    requires Fits(immutable, opc, state, b, pc) && IsOver(b)
    ensures !Writes(pc)
  {
  }

  lemma OverStep(s: Sys, s': Sys)
    requires Inv(s) && Next(s, s') && IsOver(s.h.b)
    ensures s'.h.b == s.h.b
  {
    var t :| Step(s, s', t);
    if !GateStep(s, s', t) {
      NoWriterWhenOver(s.immutable, s.once.pcs[t], s.once.sh.state, s.h.b, s.pcs[t]);
      QuietStep(t, s.immutable, s.once.pcs[t], s.once.sh.state, s.h, s.pcs[t], s'.h, s'.pcs[t]);
    }
  }

  lemma OverNext(r: seq<Sys>, k: nat)
    requires IsRun(r) && k + 1 < |r| && IsOver(r[k].h.b)
    ensures r[k + 1].h.b == r[k].h.b
  {
    RunInv(r, k);
    OverStep(r[k], r[k + 1]);
  }

  lemma {:induction false} OverIsFrozen(r: seq<Sys>, i: nat, j: nat)
    requires IsRun(r) && i <= j < |r| && IsOver(r[i].h.b)
    ensures r[j].h.b == r[i].h.b
    decreases j - i
  {
    if i == j {
    } else {
      OverNext(r, i);
      OverIsFrozen(r, i + 1, j);
    }
  }

  /** Once a teardown has gone through the map nothing is live, and from then on nothing is made, started or closed:
      calls of Chain that were already past their first readiness check start no orphan. */
  lemma NothingLivesAfterTeardown(r: seq<Sys>, i: nat, j: nat, v: Svc)
    requires IsRun(r) && i <= j < |r|
    requires r[i].h.b.phase == TornDown || r[i].once.sh.state == O.Stopped || r[i].once.sh.state == O.StopFailed
    ensures r[j].h.b == r[i].h.b && !Live(r[j].h.b, v)
  {
    RunInv(r, i);
    OverIsFrozen(r, i, j);
    assert r[i].h.b.phase == TornDown;
    if Live(r[i].h.b, v) {
      StartedIsInMap(r, i, v);
    }
  }

  /** An immutable set that is Started has every chain running; one that is StartFailed has closed, exactly once,
      every service it started, and no later call closes any of them again. Only an immutable set can be StartFailed. */
  lemma ImmutableStartAllOrNothing(r: seq<Sys>, i: nat, j: nat)
    requires IsRun(r) && i <= j < |r|
    ensures r[i].immutable && r[i].once.sh.state == O.Started ==>
              forall id | id in r[i].h.b.chains :: Live(r[i].h.b, r[i].h.b.chains[id])
    ensures r[i].once.sh.state == O.StartFailed ==>
              && r[i].immutable && r[j].h.b == r[i].h.b
              && forall v | v in r[j].h.b.ledger :: r[j].h.b.ledger[v].closes == r[j].h.b.ledger[v].starts
  {
    RunInv(r, i);
    var b := r[i].h.b;
    if r[i].once.sh.state == O.StartFailed {
      OverIsFrozen(r, i, j);
    } else if r[i].once.sh.state == O.Started && r[i].immutable {
      QuietMeansOpen(b);
    }
  }
}
