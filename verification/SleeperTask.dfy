/** The background worker of core/utils/sleeper_task.go: any number of callers of WakeUp, WakeUpIfStarted and Stop,
    and the worker loop. Stop is the stop callback of the lifecycle guard, WakeUpIfStarted a callback guarded by it. */
module SleeperTask {
  import opened Wrappers
  import O = StartStopOnce

  type Tid = O.Tid

  /** Wake-ups that were sent, and the beginnings and ends of Work calls. */
  datatype Event = Wake | Begin | End

  datatype Worker = Waiting | Taken | Working | Leaving | Exited

  /** The one-slot channel, whether the stop and done channels are closed, the loop, and what happened. */
  datatype Shared = Shared(queue: bool, stop: bool, done: bool, worker: Worker, log: seq<Event>)

  datatype Pc = Out | WakeSend | WakePanicked | GuardedSend | StopClose | StopAwait | BodyDone(ok: bool) | CloseTwice

  datatype Sys = Sys(once: O.Sys, h: Shared, pcs: map<Tid, Pc>)

  // ----- Steps -----

  function Send(h: Shared): Shared {
    h.(queue := true, log := h.log + [Wake])
  }

  /** WakeUp reads the state and then sends, unless that read said Stopped. */
  predicate WakeStep(state: O.State, h: Shared, pc: Pc, h': Shared, pc': Pc) {
    match pc
    case Out => pc' == (if state == O.Stopped then WakePanicked else WakeSend) && h' == h
    case WakeSend => pc' == Out && h' == Send(h)
    case _ => false
  }

  /** The callback of Stop: close the stop channel, then wait for the loop or for the time limit. */
  predicate StopStep(h: Shared, pc: Pc, h': Shared, pc': Pc) {
    match pc
    case StopClose => if h.stop then pc' == CloseTwice && h' == h else pc' == StopAwait && h' == h.(stop := true)
    case StopAwait => pc'.BodyDone? && (pc'.ok ==> h.done) && h' == h
    case _ => false
  }

  /** The loop takes a token or, once the stop channel is closed, may leave, even past a token. */
  predicate WorkerStep(h: Shared, h': Shared) {
    match h.worker
    case Waiting =>
      || (h.queue && h' == h.(queue := false, worker := Taken))
      || (h.stop && h' == h.(worker := Leaving))
    case Taken => h' == h.(worker := Working, log := h.log + [Begin])
    case Working => h' == h.(worker := Waiting, log := h.log + [End])
    case Leaving => h' == h.(worker := Exited, done := true)
    case Exited => false
  }

  predicate Gate(opc: O.Pc, opc': O.Pc, pc: Pc, pc': Pc) {
    if opc'.StopInBody? then pc == Out && pc' == StopClose
    else if opc'.IfStartedInBody? then pc == Out && pc' == GuardedSend
    else if opc.StopInBody? then pc.BodyDone? && opc' == O.StopAtPublish(pc.ok) && pc' == Out
    else pc == Out && pc' == Out
  }

  predicate Own(opc: O.Pc, state: O.State, h: Shared, pc: Pc, h': Shared, pc': Pc) {
    if opc.StopInBody? then StopStep(h, pc, h', pc')
    else if opc.IfStartedInBody? then pc == GuardedSend && pc' == Out && h' == Send(h)
    else (opc.Idle? || opc.Returned?) && WakeStep(state, h, pc, h', pc')
  }

  ghost predicate Moves(s: Sys, s': Sys, t: Tid) {
    && t in s.pcs && t in s'.pcs && s'.pcs == s.pcs[t := s'.pcs[t]]
    && t in s.once.pcs && t in s'.once.pcs
  }

  ghost predicate GateStep(s: Sys, s': Sys, t: Tid) {
    && Moves(s, s', t) && s'.h == s.h
    && O.Step(s.once, s'.once, t) && Gate(s.once.pcs[t], s'.once.pcs[t], s.pcs[t], s'.pcs[t])
  }

  ghost predicate OwnStep(s: Sys, s': Sys, t: Tid) {
    && Moves(s, s', t) && s'.once == s.once
    && Own(s.once.pcs[t], s.once.sh.state, s.h, s.pcs[t], s'.h, s'.pcs[t])
  }

  ghost predicate LoopStep(s: Sys, s': Sys) {
    s'.once == s.once && s'.pcs == s.pcs && WorkerStep(s.h, s'.h)
  }

  ghost predicate Next(s: Sys, s': Sys) {
    LoopStep(s, s') || exists t :: GateStep(s, s', t) || OwnStep(s, s', t)
  }

  /** What NewSleeperTask returns: a started guard, an empty queue and a waiting loop. */
  ghost predicate Init(s: Sys) {
    && (exists a :: s.once.sh == O.Shared(O.Started, None, {}, [O.StartBegan(a), O.StartEnded(a, true)]))
    && s.pcs.Keys == s.once.pcs.Keys
    && (forall t | t in s.pcs :: s.pcs[t] == Out && s.once.pcs[t] == O.Idle)
    && s.h == Shared(false, false, false, Waiting, [])
  }

  ghost predicate IsRun(r: seq<Sys>) {
    |r| > 0 && Init(r[0]) && forall i, j :: 0 <= i && j == i + 1 && j < |r| ==> Next(r[i], r[j])
  }

  // ----- What the log says -----

  /** Some wake-up is not yet followed by the beginning of a Work call. */
  predicate Pending(log: seq<Event>) {
    log != [] &&
    match log[|log| - 1]
    case Wake => true
    case Begin => false
    case End => Pending(log[..|log| - 1])
  }

  function Count(log: seq<Event>, e: Event): nat {
    if log == [] then 0 else Count(log[..|log| - 1], e) + if log[|log| - 1] == e then 1 else 0
  }

  /** Beginnings and ends take turns; `open` says whether a Work call is under way at the end. */
  predicate Alternates(log: seq<Event>, open: bool) {
    if log == [] then !open else
    match log[|log| - 1]
    case Wake => Alternates(log[..|log| - 1], open)
    case Begin => open && Alternates(log[..|log| - 1], false)
    case End => !open && Alternates(log[..|log| - 1], true)
  }

  lemma LogStep(log: seq<Event>, e: Event)
    ensures Pending(log + [e]) == (e == Wake || (e == End && Pending(log)))
    ensures forall f :: Count(log + [e], f) == Count(log, f) + if e == f then 1 else 0
    ensures forall open :: Alternates(log + [e], open) == match e
                                                           case Wake => Alternates(log, open)
                                                           case Begin => open && Alternates(log, false)
                                                           case End => !open && Alternates(log, true)
  {
    assert (log + [e])[..|log|] == log;
  }

  lemma {:induction false} PendingMeans(log: seq<Event>)
    ensures Pending(log) <==> exists i :: 0 <= i < |log| && log[i] == Wake && Begin !in log[i..]
  {
    if log == [] {
    } else {
      var n := |log| - 1;
      PendingMeans(log[..n]);
      if log[n] == Wake {
        assert Begin !in log[n..];
      } else if log[n] == Begin {
        assert forall i | 0 <= i < |log| :: log[i..][n - i] == Begin;
      } else {
        forall i | 0 <= i < n
          ensures Begin in log[i..] <==> Begin in log[..n][i..]
        {
          assert log[i..] == log[..n][i..] + [End];
        }
      }
    }
  }

  /** Between two ends of Work calls there is a beginning. */
  lemma {:induction false} EndsAreSeparated(log: seq<Event>, open: bool, p: nat, q: nat)
    requires Alternates(log, open) && p < q < |log| && log[p] == End && log[q] == End
    ensures exists k :: p < k < q && log[k] == Begin
    decreases |log|
  {
    var n := |log| - 1;
    var front := log[..n];
    if q < n {
      var open' := if log[n] == Wake then open else log[n] == End;
      EndsAreSeparated(front, open', p, q);
      var k :| p < k < q && front[k] == Begin;
      assert log[k] == Begin;
    } else {
      OpenSince(front, p);
      var k :| p < k < |front| && front[k] == Begin;
      assert log[k] == Begin;
    }
  }

  lemma {:induction false} OpenSince(log: seq<Event>, p: nat)
    requires Alternates(log, true) && p < |log| && log[p] == End
    ensures exists k :: p < k < |log| && log[k] == Begin
  {
    var n := |log| - 1;
    if log[n] == Begin {
      assert p < n;
    } else {
      OpenSince(log[..n], p);
      var k :| p < k < n && log[..n][k] == Begin;
      assert log[k] == Begin;
    }
  }

  // ----- Inductive invariant -----

  predicate Pair(opc: O.Pc, pc: Pc) {
    match pc
    case WakeSend | WakePanicked => opc.Idle? || opc.Returned?
    case GuardedSend => opc.IfStartedInBody?
    case StopClose | StopAwait => opc.StopInBody?
    case BodyDone(_) => opc.StopInBody?
    case CloseTwice => false
    case Out => !opc.StopInBody?
  }

  predicate Fits(opc: O.Pc, h: Shared, pc: Pc) {
    && Pair(opc, pc)
    && (pc == StopClose ==> !h.stop)
    && (pc == BodyDone(true) ==> h.done)
    && (opc == O.StopAtPublish(true) ==> h.done)
  }

  predicate LoopFits(state: O.State, h: Shared) {
    && (Pending(h.log) ==> h.queue || h.worker == Taken)
    && Alternates(h.log, h.worker == Working)
    && Count(h.log, Begin) + (if h.queue then 1 else 0) + (if h.worker == Taken then 1 else 0) <= Count(h.log, Wake)
    && (h.done <==> h.worker == Exited)
    && (h.worker == Leaving || h.done ==> h.stop)
    && (state == O.Started ==> !h.stop)
    && (state == O.Stopped ==> h.done)
    && state != O.Unstarted && state != O.Starting
  }

  ghost predicate Inv(s: Sys) {
    && O.Inv(s.once) && s.pcs.Keys == s.once.pcs.Keys
    && (forall t | t in s.pcs :: Fits(s.once.pcs[t], s.h, s.pcs[t]))
    && LoopFits(s.once.sh.state, s.h)
  }

  lemma SendFits(state: O.State, h: Shared)
    requires LoopFits(state, h)
    ensures LoopFits(state, Send(h))
  {
    LogStep(h.log, Wake);
  }

  lemma WorkerFits(state: O.State, h: Shared, h': Shared)
    requires LoopFits(state, h) && WorkerStep(h, h')
    ensures LoopFits(state, h') && h'.stop == h.stop && (h.done ==> h'.done)
  {
    LogStep(h.log, Begin);
    LogStep(h.log, End);
  }

  lemma OwnFits(opc: O.Pc, state: O.State, h: Shared, pc: Pc, h': Shared, pc': Pc)
    requires Own(opc, state, h, pc, h', pc') && Fits(opc, h, pc) && LoopFits(state, h) && O.Fits(opc, state)
    ensures Fits(opc, h', pc') && LoopFits(state, h') && h'.done == h.done
    ensures h'.stop != h.stop ==> opc.StopInBody?
  {
    SendFits(state, h);
  }

  lemma LoopKeepsInv(s: Sys, s': Sys)
    requires Inv(s) && LoopStep(s, s')
    ensures Inv(s')
  {
    WorkerFits(s.once.sh.state, s.h, s'.h);
  }

  lemma OwnKeepsInv(s: Sys, s': Sys, t: Tid)
    requires Inv(s) && OwnStep(s, s', t)
    ensures Inv(s')
  {
    OwnFits(s.once.pcs[t], s.once.sh.state, s.h, s.pcs[t], s'.h, s'.pcs[t]);
    forall u | u in s.pcs && u != t
      ensures Fits(s.once.pcs[u], s'.h, s.pcs[u])
    {
      assert O.HoldsWrite(s.once.pcs[u]) ==> s.once.sh.writer == Some(u);
      assert O.HoldsWrite(s.once.pcs[t]) ==> s.once.sh.writer == Some(t);
    }
  }

  lemma StopGateFits(t: Tid, g: O.Shared, opc: O.Pc, g': O.Shared, opc': O.Pc, h: Shared, pc: Pc, pc': Pc)
    requires O.StopStep(t, g, opc, g', opc') && Gate(opc, opc', pc, pc') && Fits(opc, h, pc)
    requires g.state == O.Started ==> !h.stop
    ensures Fits(opc', h, pc')
    ensures g'.state == O.Started ==> g.state == O.Started
    ensures g'.state == O.Stopped && g.state != O.Stopped ==> h.done
    ensures g'.state == O.Unstarted || g'.state == O.Starting ==> g'.state == g.state
  {
  }

  lemma StartGateFits(t: Tid, g: O.Shared, opc: O.Pc, g': O.Shared, opc': O.Pc, h: Shared, pc: Pc, pc': Pc)
    requires O.StartStep(t, g, opc, g', opc') && O.Fits(opc, g.state) && g.state != O.Unstarted && g.state != O.Starting
    requires Gate(opc, opc', pc, pc')
    ensures Fits(opc', h, pc') && g'.state == g.state
  {
  }

  lemma GuardGateFits(t: Tid, g: O.Shared, opc: O.Pc, g': O.Shared, opc': O.Pc, h: Shared, pc: Pc, pc': Pc)
    requires O.CallStep(g, opc, g', opc') || O.GuardStep(t, g, opc, g', opc')
    requires Gate(opc, opc', pc, pc') && Fits(opc, h, pc)
    ensures Fits(opc', h, pc') && g'.state == g.state
  {
  }

  lemma GateFits(t: Tid, g: O.Shared, opc: O.Pc, g': O.Shared, opc': O.Pc, h: Shared, pc: Pc, pc': Pc)
    requires O.Local(t, g, opc, g', opc') && O.Fits(opc, g.state)
    requires Gate(opc, opc', pc, pc') && Fits(opc, h, pc) && LoopFits(g.state, h)
    ensures Fits(opc', h, pc') && LoopFits(g'.state, h)
  {
    if O.StartStep(t, g, opc, g', opc') {
      StartGateFits(t, g, opc, g', opc', h, pc, pc');
    } else if O.StopStep(t, g, opc, g', opc') {
      StopGateFits(t, g, opc, g', opc', h, pc, pc');
    } else {
      GuardGateFits(t, g, opc, g', opc', h, pc, pc');
    }
  }

  lemma GateKeepsInv(s: Sys, s': Sys, t: Tid)
    requires Inv(s) && GateStep(s, s', t)
    ensures Inv(s')
  {
    O.StepKeepsInv(s.once, s'.once, t);
    GateFits(t, s.once.sh, s.once.pcs[t], s'.once.sh, s'.once.pcs[t], s.h, s.pcs[t], s'.pcs[t]);
    assert forall u | u in s.pcs && u != t :: s'.once.pcs[u] == s.once.pcs[u];
  }

  // ----- Every run -----

  lemma InitInv(s: Sys)
    requires Init(s)
    ensures Inv(s)
  {
    var a :| s.once.sh == O.Shared(O.Started, None, {}, [O.StartBegan(a), O.StartEnded(a, true)]);
    assert O.IsStarted(s.once, a, true);
  }

  lemma NextKeepsInv(s: Sys, s': Sys)
    requires Inv(s) && Next(s, s')
    ensures Inv(s')
  {
    if LoopStep(s, s') {
      LoopKeepsInv(s, s');
    } else {
      var t :| GateStep(s, s', t) || OwnStep(s, s', t);
      if GateStep(s, s', t) {
        GateKeepsInv(s, s', t);
      } else {
        OwnKeepsInv(s, s', t);
      }
    }
  }

  lemma {:induction false} RunInv(r: seq<Sys>, i: nat)
    requires IsRun(r) && i < |r|
    ensures Inv(r[i])
  {
    if i == 0 {
      InitInv(r[0]);
    } else {
      RunInv(r, i - 1);
      NextKeepsInv(r[i - 1], r[i]);
    }
  }

  /** No wake-up is lost: one that no Work call has answered yet is a token in the queue, or a token just taken. */
  lemma NoWakeUpLost(r: seq<Sys>, i: nat, k: nat)
    requires IsRun(r) && i < |r|
    requires k < |r[i].h.log| && r[i].h.log[k] == Wake && Begin !in r[i].h.log[k..]
    ensures r[i].h.queue || r[i].h.worker == Taken
  {
    RunInv(r, i);
    PendingMeans(r[i].h.log);
  }

  /** An unanswered wake-up waits for at most the end of the Work call in progress. */
  lemma AtMostOneEndBefore(r: seq<Sys>, i: nat, k: nat, p: nat, q: nat)
    requires IsRun(r) && i < |r| && k <= p < |r[i].h.log| && k <= q < |r[i].h.log|
    requires Begin !in r[i].h.log[k..] && r[i].h.log[p] == End && r[i].h.log[q] == End
    ensures p == q
  {
    RunInv(r, i);
    var log := r[i].h.log;
    assert forall j | k <= j < |log| :: log[j] == log[k..][j - k];
    if p < q {
      EndsAreSeparated(log, r[i].h.worker == Working, p, q);
    } else if q < p {
      EndsAreSeparated(log, r[i].h.worker == Working, q, p);
    }
  }

  /** Work calls never outnumber wake-ups. */
  lemma WorkNeedsWakeUps(r: seq<Sys>, i: nat)
    requires IsRun(r) && i < |r|
    ensures Count(r[i].h.log, Begin) <= Count(r[i].h.log, Wake)
  {
    RunInv(r, i);
  }

  /** The stop channel is never closed twice. */
  lemma StopClosesOnce(r: seq<Sys>, i: nat, t: Tid)
    requires IsRun(r) && i < |r| && t in r[i].pcs
    ensures r[i].pcs[t] != CloseTwice
  {
    RunInv(r, i);
  }

  // ----- After Stop -----

  lemma ExitIsFinal(s: Sys, s': Sys)
    requires Inv(s) && Next(s, s') && s.h.worker == Exited
    ensures s'.h.worker == Exited && Count(s'.h.log, Begin) == Count(s.h.log, Begin)
  {
    LogStep(s.h.log, Wake);
  }

  lemma {:induction false} ExitedStays(r: seq<Sys>, i: nat, j: nat)
    requires IsRun(r) && i <= j < |r| && r[i].h.worker == Exited
    ensures r[j].h.worker == Exited && Count(r[j].h.log, Begin) == Count(r[i].h.log, Begin)
    decreases j - i
  {
    if i == j {
    } else {
      RunInv(r, i);
      ExitIsFinal(r[i], r[i + 1]);
      ExitedStays(r, i + 1, j);
    }
  }

  /** Once any Stop has returned nil, no Work call is running, and none ever begins. */
  lemma NoWorkAfterStop(r: seq<Sys>, i: nat, j: nat, t: Tid)
    requires IsRun(r) && i <= j < |r| && t in r[i].once.pcs
    requires r[i].once.pcs[t] == O.Returned(O.StopReturned(true))
    ensures r[j].h.worker != Working && Count(r[j].h.log, Begin) == Count(r[i].h.log, Begin)
  {
    RunInv(r, i);
    assert O.OutcomeFits(O.StopReturned(true), r[i].once.sh.state);
    ExitedStays(r, i, j);
  }

  // ----- Progress -----

  /** The worker's own steps until the next Work call begins, when a token is there to take. */
  function Distance(w: Worker): nat {
    match w
    case Taken => 1
    case Waiting => 2
    case Working => 3
    case _ => 0
  }

  /** While an unanswered wake-up is there and the worker has not seen the stop, the worker can move; each of its moves
      begins a Work call or comes closer to it, or leaves on a stop; and no other step puts it back. */
  lemma WakeUpIsAnswered(r: seq<Sys>, i: nat, h': Shared)
    requires IsRun(r) && i < |r| && Pending(r[i].h.log)
    ensures r[i].h.worker != Leaving && r[i].h.worker != Exited ==> exists h'' :: WorkerStep(r[i].h, h'')
    ensures WorkerStep(r[i].h, h') && h'.worker != Leaving && h'.worker != Exited ==>
              || h'.log == r[i].h.log + [Begin]
              || (Pending(h'.log) && 0 < Distance(h'.worker) < Distance(r[i].h.worker))
    ensures i + 1 < |r| && !LoopStep(r[i], r[i + 1]) ==> r[i + 1].h.worker == r[i].h.worker && Pending(r[i + 1].h.log)
  {
    RunInv(r, i);
    var h := r[i].h;
    LogStep(h.log, End);
    LogStep(h.log, Wake);
    match h.worker
    case Waiting => assert WorkerStep(h, h.(queue := false, worker := Taken));
    case Taken => assert WorkerStep(h, h.(worker := Working, log := h.log + [Begin]));
    case Working => assert WorkerStep(h, h.(worker := Waiting, log := h.log + [End]));
    case _ =>
  }
}
