/** What one call of Chain is answered, in any run of the chain set, and what can happen in a run. */
module ChainSetCalls {
  import opened Wrappers
  import opened ChainSetProtocol
  import O = StartStopOnce

  // ----- One call of Chain -----

  ghost predicate OnAskCall(r: seq<Sys>, i: nat, j: nat, u: Tid, id: string, k: nat) {
    && k < |r| && u in r[k].pcs
    && (k == i ==> r[k].pcs[u] == AskReady(id))
    && (k < j ==> InAsk(r[k].pcs[u]) && r[k].pcs[u].id == id)
  }

  /** One call of Chain(id), from its first readiness check at r[i] to r[j]. */
  ghost predicate IsAskCall(r: seq<Sys>, i: nat, j: nat, u: Tid, id: string) {
    i <= j && forall k: nat | i <= k <= j :: OnAskCall(r, i, j, u, id, k)
  }

  lemma AskUpTo(r: seq<Sys>, i: nat, j: nat, u: Tid, id: string)
    requires IsAskCall(r, i, j, u, id) && i < j
    ensures IsAskCall(r, i, j - 1, u, id) && OnAskCall(r, i, j, u, id, j - 1) && OnAskCall(r, i, j, u, id, j)
  {
    var m := j - 1;
    forall k: nat | i <= k <= m
      ensures OnAskCall(r, i, m, u, id, k)
    {
      assert OnAskCall(r, i, j, u, id, k);
    }
  }

  /** A step of a caller inside Chain. */
  predicate AskMove(t: Tid, state: O.State, h: Shared, pc: Pc, h': Shared, pc': Pc) {
    if InMake(pc) then MakeStep(t, state, h, pc, h', pc') else LookStep(t, state, h, pc, h', pc')
  }

  /** Past the second look at the map, which did not find the chain. */
  predicate Missed(pc: Pc) {
    pc.AskLoad? || pc.AskNew? || pc.AskStart?
  }

  lemma AskMoves(s: Sys, s': Sys, u: Tid)
    requires Inv(s) == true && Step(s, s', u) && InAsk(s.pcs[u])
    ensures AskMove(u, s.once.sh.state, s.h, s.pcs[u], s'.h, s'.pcs[u])
  {
    assert Pair(s.once.pcs[u], s.pcs[u]);
  }

  lemma MissedIsAbsent(s: Sys, u: Tid)
    requires Inv(s) == true && u in s.pcs && Missed(s.pcs[u])
    ensures s.pcs[u].id !in s.h.b.chains
  {
    assert Fits(s.immutable, s.once.pcs[u], s.once.sh.state, s.h.b, s.pcs[u]);
  }

  /** One step of a run, seen by a caller inside Chain. */
  ghost predicate SeenAsk(s: Sys, s': Sys, u: Tid)
    requires u in s.pcs && u in s'.pcs
  {
    || s'.pcs[u] == s.pcs[u]
    || AskMove(u, s.once.sh.state, s.h, s.pcs[u], s'.h, s'.pcs[u])
  }

  lemma NextAsk(r: seq<Sys>, k: nat, m: nat, u: Tid)
    requires IsRun(r) && m == k + 1 && m < |r| && u in r[k].pcs && InAsk(r[k].pcs[u])
    ensures u in r[m].pcs && (SeenAsk(r[k], r[m], u) == true)
    ensures Missed(r[k].pcs[u]) ==> r[k].pcs[u].id !in r[k].h.b.chains
  {
    RunInv(r, k);
    assert Next(r[k], r[m]);
    var t :| Step(r[k], r[m], t);
    if t == u {
      AskMoves(r[k], r[m], u);
    }
    if Missed(r[k].pcs[u]) {
      MissedIsAbsent(r[k], u);
    }
  }

  // ----- When Chain refuses -----

  /** The reasons for an answer without a service: not ready at one of the two checks, or the chain is not in the map
      and cannot be loaded, made or started. */
  predicate Refuses(state: O.State, h: Shared, pc: Pc, pc': Pc) {
    match pc
    case AskReady(_) => state != O.Started
    case AskReadyAgain(_) => state != O.Started
    case AskLoad(id) => id !in h.b.chains && pc' == AskUnlock(id, None)
    case AskNew(id) => id !in h.b.chains && pc' == AskUnlock(id, None)
    case AskStart(id, _) => id !in h.b.chains && pc' == AskUnlock(id, None)
    case _ => false
  }

  /** Such a step of the caller, from r[k] to r[k + 1]. */
  ghost predicate RefusesAt(r: seq<Sys>, k: nat, u: Tid) {
    && k + 1 < |r| && u in r[k].pcs && u in r[k + 1].pcs && r[k + 1].pcs[u] != r[k].pcs[u]
    && Refuses(r[k].once.sh.state, r[k].h, r[k].pcs[u], r[k + 1].pcs[u])
  }

  ghost predicate RefusedBetween(r: seq<Sys>, i: nat, j: nat, u: Tid) {
    exists k: nat | i <= k < j :: RefusesAt(r, k, u)
  }

  lemma RefusedOneMore(r: seq<Sys>, i: nat, j: nat, u: Tid)
    requires i < j
    ensures RefusedBetween(r, i, j, u) == (RefusedBetween(r, i, j - 1, u) || RefusesAt(r, j - 1, u))
  {
    if RefusedBetween(r, i, j, u) {
      var k: nat :| i <= k < j && RefusesAt(r, k, u);
      assert k == j - 1 || k < j - 1;
    }
  }

  /** The answer without a service is fixed, or given. */
  predicate Refused(pc: Pc) {
    (pc.AskUnlock? || pc.AskReturned?) && pc.result == None
  }

  lemma LookRefuses(t: Tid, state: O.State, h: Shared, pc: Pc, h': Shared, pc': Pc)
    requires LookStep(t, state, h, pc, h', pc') == true && InAsk(pc) && !InMake(pc)
    ensures Refused(pc') == Refuses(state, h, pc, pc') && pc' != pc && !Refused(pc)
  {
  }

  lemma MakeRefuses(t: Tid, state: O.State, h: Shared, pc: Pc, h': Shared, pc': Pc)
    requires MakeStep(t, state, h, pc, h', pc') == true && (Missed(pc) ==> pc.id !in h.b.chains)
    ensures Refused(pc') == (Refused(pc) || Refuses(state, h, pc, pc')) && pc' != pc
  {
  }

  lemma RefusedStep(r: seq<Sys>, k: nat, m: nat, u: Tid)
    requires IsRun(r) && m == k + 1 && m < |r| && u in r[k].pcs && InAsk(r[k].pcs[u])
    ensures u in r[m].pcs && (Refused(r[m].pcs[u]) == (Refused(r[k].pcs[u]) || RefusesAt(r, k, u)))
  {
    NextAsk(r, k, m, u);
    var pc, pc' := r[k].pcs[u], r[m].pcs[u];
    if AskMove(u, r[k].once.sh.state, r[k].h, pc, r[m].h, pc') {
      if InMake(pc) {
        MakeRefuses(u, r[k].once.sh.state, r[k].h, pc, r[m].h, pc');
      } else {
        LookRefuses(u, r[k].once.sh.state, r[k].h, pc, r[m].h, pc');
      }
    }
  }

  lemma {:induction false} RefusedIff(r: seq<Sys>, i: nat, j: nat, u: Tid, id: string)
    requires IsRun(r) && IsAskCall(r, i, j, u, id)
    ensures j < |r| && u in r[j].pcs && Refused(r[j].pcs[u]) == RefusedBetween(r, i, j, u)
    decreases j - i
  {
    if i == j {
      assert OnAskCall(r, i, i, u, id, i);
    } else {
      AskUpTo(r, i, j, u, id);
      RefusedIff(r, i, j - 1, u, id);
      RefusedStep(r, j - 1, j, u);
      RefusedOneMore(r, i, j, u);
    }
  }

  ghost predicate IsAt(r: seq<Sys>, k: nat, u: Tid, pc: Pc) {
    k < |r| && u in r[k].pcs && r[k].pcs[u] == pc
  }

  /** Chain answers without a service exactly if the set was not ready at one of its checks, or the chain was missing
      under the lock and could not be loaded, made or started. */
  lemma ChainRefusesIff(r: seq<Sys>, i: nat, j: nat, u: Tid, id: string, result: Option<Svc>)
    requires IsRun(r) && IsAskCall(r, i, j, u, id) && IsAt(r, j, u, AskReturned(id, result))
    ensures result == None <==> exists k: nat | i <= k < j :: RefusesAt(r, k, u)
  {
    RefusedIff(r, i, j, u, id);
    assert RefusedBetween(r, i, j, u) == exists k: nat | i <= k < j :: RefusesAt(r, k, u);
  }

  // ----- When Chain answers from the map -----

  /** On the way to this service, without waiting for the write lock. */
  predicate OnFastPath(pc: Pc, id: string, v: Svc) {
    || pc == AskRLock(id) || pc == AskRead(id) || pc == AskRUnlock(id, Some(v))
    || pc == AskReturned(id, Some(v))
  }

  lemma FastStep(t: Tid, state: O.State, h: Shared, pc: Pc, h': Shared, pc': Pc, id: string, v: Svc)
    requires LookStep(t, state, h, pc, h', pc') == true && OnFastPath(pc, id, v) && InAsk(pc)
    requires IsHome(h.b, id, v)
    ensures OnFastPath(pc', id, v)
  {
  }

  ghost predicate FastAt(r: seq<Sys>, k: nat, u: Tid, id: string, v: Svc) {
    k < |r| && u in r[k].pcs && OnFastPath(r[k].pcs[u], id, v) && IsHome(r[k].h.b, id, v)
  }

  lemma NextFast(r: seq<Sys>, k: nat, m: nat, u: Tid, id: string, v: Svc)
    requires IsRun(r) && m == k + 1 && m < |r| && FastAt(r, k, u, id, v) == true && InAsk(r[k].pcs[u]) == true
    ensures FastAt(r, m, u, id, v) == true
  {
    NextAsk(r, k, m, u);
    RunGrows(r, k, m);
    if r[m].pcs[u] != r[k].pcs[u] {
      FastStep(u, r[k].once.sh.state, r[k].h, r[k].pcs[u], r[m].h, r[m].pcs[u], id, v);
    }
  }

  ghost predicate AskingAt(r: seq<Sys>, k: nat, u: Tid) {
    k < |r| && u in r[k].pcs && InAsk(r[k].pcs[u])
  }

  lemma {:induction false} StaysFast(r: seq<Sys>, k: nat, j: nat, u: Tid, id: string, v: Svc)
    requires IsRun(r) && k <= j < |r| && FastAt(r, k, u, id, v) == true
    requires forall m: nat | k <= m < j :: AskingAt(r, m, u)
    ensures FastAt(r, j, u, id, v) == true
    decreases j - k
  {
    if k == j {
    } else {
      assert AskingAt(r, k, u);
      NextFast(r, k, k + 1, u, id, v);
      StaysFast(r, k + 1, j, u, id, v);
    }
  }

  /** A call that has passed its first check and finds the chain in the map when it reads it, or before, is answered
      with that service, and never waits for the write lock. */
  lemma KnownChainIsAnswered(r: seq<Sys>, i: nat, k: nat, j: nat, u: Tid, id: string)
    requires IsRun(r) && i <= k <= j && IsAskCall(r, i, j, u, id)
    requires (IsAt(r, k, u, AskRLock(id)) || IsAt(r, k, u, AskRead(id))) && id in r[k].h.b.chains
    ensures FastAt(r, j, u, id, r[k].h.b.chains[id])
  {
    forall m: nat | k <= m < j
      ensures AskingAt(r, m, u)
    {
      assert OnAskCall(r, i, j, u, id, m);
    }
    assert OnAskCall(r, i, j, u, id, j);
    StaysFast(r, k, j, u, id, r[k].h.b.chains[id]);
  }

  lemma FirstCheck(t: Tid, h: Shared, pc: Pc, h': Shared, pc': Pc)
    requires LookStep(t, O.Started, h, pc, h', pc') && pc.AskReady?
    ensures pc' == AskRLock(pc.id)
  {
  }

  /** A call during which the state is Started, for a chain that is in the map when the call is made, is answered with
      the service of that chain. */
  lemma {:induction false} ReadyChainIsAnswered(r: seq<Sys>, i: nat, j: nat, u: Tid, id: string)
    requires IsRun(r) && IsAskCall(r, i, j, u, id)
    requires forall k | i <= k <= j && k < |r| :: r[k].once.sh.state == O.Started
    requires i < |r| && id in r[i].h.b.chains
    ensures IsAt(r, j, u, AskReady(id)) || FastAt(r, j, u, id, r[i].h.b.chains[id])
    decreases j - i
  {
    if i == j {
      assert OnAskCall(r, i, i, u, id, i);
    } else {
      AskUpTo(r, i, j, u, id);
      var m := j - 1;
      ReadyChainIsAnswered(r, i, m, u, id);
      if IsAt(r, m, u, AskReady(id)) {
        NextAsk(r, m, j, u);
        RunGrows(r, i, j);
        if r[j].pcs[u] != r[m].pcs[u] {
          FirstCheck(u, r[m].h, r[m].pcs[u], r[j].h, r[j].pcs[u]);
        }
      } else {
        NextFast(r, m, j, u, id, r[i].h.b.chains[id]);
      }
    }
  }

  // ----- What can happen -----

  /** From one state to another by `n` steps of `t`, no other caller moving. */
  ghost predicate Reaches(s: Sys, s': Sys, t: Tid, n: nat)
    decreases n
  {
    if n == 0 then s' == s else exists m :: Step(s, m, t) && Reaches(m, s', t, n - 1)
  }

  /** The state after a step of `t` inside the set. */
  function Moved(s: Sys, t: Tid, h: Shared, pc: Pc): Sys {
    s.(h := h, pcs := s.pcs[t := pc])
  }

  predicate CanAsk(s: Sys, t: Tid) {
    t in s.pcs && t in s.once.pcs && (s.once.pcs[t].Idle? || s.once.pcs[t].Returned?)
  }

  lemma MakeReaches(s: Sys, t: Tid, h: Shared, pc: Pc, m: Sys, s': Sys, n: nat)
    requires CanAsk(s, t) == true && InMake(s.pcs[t]) == true
    requires MakeStep(t, s.once.sh.state, s.h, s.pcs[t], h, pc) == true
    requires m == Moved(s, t, h, pc) && Reaches(m, s', t, n)
    ensures Reaches(s, s', t, n + 1)
  {
    assert OwnStep(s, m, t);
    assert Step(s, m, t);
  }

  /** The map and the ledger once a new service for `id` runs. */
  function WithService(b: Books, id: string, v: Svc): Books {
    b.(ledger := b.ledger[v := Record(id, 1, 0)], tried := b.tried + {v}, chains := b.chains[id := v])
  }

  lemma MadeAndStarted(b: Books, id: string, v: Svc)
    requires v !in b.ledger
    ensures var made := b.(ledger := b.ledger[v := Record(id, 0, 0)]);
            var running := Started(made, v);
            running.(chains := running.chains[id := v]) == WithService(b, id, v)
  {
    assert b.ledger[v := Record(id, 0, 0)][v := Record(id, 1, 0)] == b.ledger[v := Record(id, 1, 0)];
  }

  /** From a service that is started, to the answer. */
  lemma StartedIsAnswered(s: Sys, t: Tid, id: string, v: Svc, s': Sys)
    requires CanAsk(s, t) && s.pcs[t] == AskInsert(id, v)
    requires var b' := s.h.b.(chains := s.h.b.chains[id := v]);
             s' == Moved(s, t, Shared(None, s.h.readers, b'), AskReturned(id, Some(v)))
    ensures Reaches(s, s', t, 2)
  {
    var kept := s.h.(b := s'.h.b);
    var m := Moved(s, t, kept, AskUnlock(id, Some(v)));
    assert s'.pcs == m.pcs[t := AskReturned(id, Some(v))];
    MakeReaches(m, t, s'.h, AskReturned(id, Some(v)), s', s', 0);
    MakeReaches(s, t, kept, AskUnlock(id, Some(v)), m, s', 1);
  }

  /** From a service that is made, to the answer. */
  lemma MadeIsAnswered(s: Sys, t: Tid, id: string, v: Svc, b': Books, s': Sys)
    requires CanAsk(s, t) && s.pcs[t] == AskStart(id, v) && v in s.h.b.ledger
    requires var running := Started(s.h.b, v); b' == running.(chains := running.chains[id := v])
    requires s' == Moved(s, t, Shared(None, s.h.readers, b'), AskReturned(id, Some(v)))
    ensures Reaches(s, s', t, 3)
  {
    var running := s.h.(b := Started(s.h.b, v));
    var m := Moved(s, t, running, AskInsert(id, v));
    assert s'.pcs == m.pcs[t := AskReturned(id, Some(v))];
    StartedIsAnswered(m, t, id, v, s');
    MakeReaches(s, t, running, AskInsert(id, v), m, s', 2);
  }

  lemma LoadedIsAnswered(s: Sys, t: Tid, id: string, v: Svc, s': Sys)
    requires CanAsk(s, t) && s.pcs[t] == AskNew(id) && v !in s.h.b.ledger
    requires s' == Moved(s, t, Shared(None, s.h.readers, WithService(s.h.b, id, v)), AskReturned(id, Some(v)))
    ensures Reaches(s, s', t, 4)
  {
    MadeAndStarted(s.h.b, id, v);
    var made := s.h.(b := s.h.b.(ledger := s.h.b.ledger[v := Record(id, 0, 0)]));
    var m := Moved(s, t, made, AskStart(id, v));
    assert s'.pcs == m.pcs[t := AskReturned(id, Some(v))];
    MadeIsAnswered(m, t, id, v, s'.h.b, s');
    MakeReaches(s, t, made, AskStart(id, v), m, s', 3);
  }

  /** A missing chain can be loaded, made, started once and put into the map, and its caller gets it. */
  lemma MissingChainCanBeMade(s: Sys, t: Tid, id: string, v: Svc, s': Sys)
    requires CanAsk(s, t) && s.pcs[t] == AskLoad(id) && v !in s.h.b.ledger
    requires s' == Moved(s, t, Shared(None, s.h.readers, WithService(s.h.b, id, v)), AskReturned(id, Some(v)))
    ensures Reaches(s, s', t, 5)
  {
    var m := Moved(s, t, s.h, AskNew(id));
    assert s'.pcs == m.pcs[t := AskReturned(id, Some(v))];
    LoadedIsAnswered(m, t, id, v, s');
    MakeReaches(s, t, s.h, AskNew(id), m, s', 4);
  }

  /** Each of the three steps outside the code can fail. */
  lemma MakingCanFail(s: Sys, t: Tid, b: Books)
    requires CanAsk(s, t) && Missed(s.pcs[t])
    requires b == if s.pcs[t].AskStart? then NotStarted(s.h.b, s.pcs[t].v) else s.h.b
    ensures Reaches(s, Moved(s, t, s.h.(b := b), AskUnlock(s.pcs[t].id, None)), t, 1)
  {
    var pc' := AskUnlock(s.pcs[t].id, None);
    var m := Moved(s, t, s.h.(b := b), pc');
    MakeReaches(s, t, m.h, pc', m, m, 0);
  }

  /** In its turn, each chain that the body of Start still has to do can be started, whatever became of the others. */
  lemma EachCanBeStarted(s: Sys, t: Tid, id: string, v: Svc)
    requires t in s.pcs && t in s.once.pcs && s.once.pcs[t].StartInBody? && s.pcs[t].StartLoop?
    requires id in s.pcs[t].todo && IsHome(s.h.b, id, v) && v in s.h.b.ledger
    ensures var pc := StartLoop(s.pcs[t].todo - {id}, s.pcs[t].started + [v]);
            Reaches(s, Moved(s, t, s.h.(b := Started(s.h.b, v)), pc), t, 1)
  {
    var m := Moved(s, t, s.h.(b := Started(s.h.b, v)), StartLoop(s.pcs[t].todo - {id}, s.pcs[t].started + [v]));
    assert ChosenStarted(s.h, s.pcs[t].todo, s.pcs[t].started, m.pcs[t].todo, m.pcs[t].started, m.h);
    assert OwnStep(s, m, t);
    assert Step(s, m, t);
    assert Reaches(m, m, t, 0);
  }

  /** A mutable set goes on with the other chains, an immutable one is to close what it started. */
  function AfterFailure(s: Sys, t: Tid, id: string, v: Svc): Sys
    requires t in s.pcs && s.pcs[t].StartLoop?
  {
    var b, pc := NotStarted(s.h.b, v), s.pcs[t];
    if s.immutable then Moved(s, t, s.h.(b := b.(phase := RollingBack)), StartRollback(pc.started))
    else Moved(s, t, s.h.(b := b), StartLoop(pc.todo - {id}, pc.started))
  }

  /** It can also fail to start. */
  lemma EachCanFail(s: Sys, t: Tid, id: string, v: Svc)
    requires t in s.pcs && t in s.once.pcs && s.once.pcs[t].StartInBody? && s.pcs[t].StartLoop?
    requires id in s.pcs[t].todo && IsHome(s.h.b, id, v)
    ensures Reaches(s, AfterFailure(s, t, id, v), t, 1)
  {
    var pc, m := s.pcs[t], AfterFailure(s, t, id, v);
    assert s.immutable ==> ChosenBreaks(s.h, pc.todo, m.h);
    assert !s.immutable ==> ChosenSkipped(s.h, pc.todo, m.pcs[t].todo, m.h);
    assert OwnStep(s, m, t);
    assert Step(s, m, t);
    assert Reaches(m, m, t, 0);
  }

  /** Each chain that the body of Close still has to do can be closed, with an error or without. */
  lemma EachCanBeClosed(s: Sys, t: Tid, id: string, v: Svc, ok: bool)
    requires t in s.pcs && t in s.once.pcs && s.once.pcs[t].StopInBody? && s.pcs[t].CloseLoop?
    requires id in s.pcs[t].todo && IsHome(s.h.b, id, v) && v in s.h.b.ledger
    ensures var pc := CloseLoop(s.pcs[t].todo - {id}, s.pcs[t].ok && ok);
            Reaches(s, Moved(s, t, s.h.(b := Closed(s.h.b, v, ok)), pc), t, 1)
  {
    var m := Moved(s, t, s.h.(b := Closed(s.h.b, v, ok)), CloseLoop(s.pcs[t].todo - {id}, s.pcs[t].ok && ok));
    assert ChosenClosed(s.h, s.pcs[t].todo, m.pcs[t].todo, ok, m.h);
    assert OwnStep(s, m, t);
    assert Step(s, m, t);
    assert Reaches(m, m, t, 0);
  }

  /** A caller that is in no call can ask for any chain, and only the empty id is turned away at once. */
  lemma AnyoneCanAsk(s: Sys, t: Tid, id: string)
    requires CanAsk(s, t) && (s.pcs[t].Out? || s.pcs[t].AskReturned?)
    ensures Reaches(s, Moved(s, t, s.h, if id == "" then AskReturned("", None) else AskReady(id)), t, 1)
  {
    var m := Moved(s, t, s.h, if id == "" then AskReturned("", None) else AskReady(id));
    assert OwnStep(s, m, t);
    assert Step(s, m, t);
    assert Reaches(m, m, t, 0);
  }
}
