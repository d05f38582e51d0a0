/** What one call on a sleeper task does, in any run: when WakeUp panics, when it and WakeUpIfStarted send, and how a
    Stop can come to an end. */
module WakeUps {
  import opened Wrappers
  import opened SleeperTask
  import O = StartStopOnce
  import L = LifecycleCalls

  /** The guard alone. */
  ghost function Guards(r: seq<Sys>): (g: seq<O.Sys>)
    ensures |g| == |r| && forall k | 0 <= k < |r| :: g[k] == r[k].once
  {
    seq(|r|, k requires 0 <= k < |r| => r[k].once)
  }

  lemma GuardMoves(s: Sys, s': Sys)
    requires Next(s, s')
    ensures s'.once == s.once || O.Next(s.once, s'.once)
  {
    if s'.once != s.once {
      var t :| GateStep(s, s', t) || OwnStep(s, s', t);
      assert O.Step(s.once, s'.once, t);
    }
  }

  lemma GuardTrace(r: seq<Sys>)
    requires IsRun(r)
    ensures L.IsTrace(Guards(r))
  {
    InitInv(r[0]);
    var g := Guards(r);
    forall i, j | 0 <= i && j == i + 1 && j < |g|
      ensures g[j] == g[i] || O.Next(g[i], g[j])
    {
      GuardMoves(r[i], r[j]);
    }
  }

  /** One step of a run, seen by one caller. */
  ghost predicate SeenStep(s: Sys, s': Sys, t: Tid)
    requires t in s.pcs && t in s'.pcs && t in s.once.pcs && t in s'.once.pcs
  {
    || (s'.pcs[t] == s.pcs[t] && s'.once.pcs[t] == s.once.pcs[t])
    || GateStep(s, s', t) || OwnStep(s, s', t)
  }

  lemma NextSeen(r: seq<Sys>, k: nat, m: nat, t: Tid)
    requires IsRun(r) && m == k + 1 && m < |r| && t in r[k].pcs
    ensures t in r[m].pcs && t in r[k].once.pcs && t in r[m].once.pcs
    ensures Fits(r[k].once.pcs[t], r[k].h, r[k].pcs[t])
    ensures SeenStep(r[k], r[m], t) == true
  {
    RunInv(r, k);
    RunInv(r, m);
    if !LoopStep(r[k], r[m]) {
      var u :| GateStep(r[k], r[m], u) || OwnStep(r[k], r[m], u);
    }
  }

  // ----- WakeUp -----

  /** A WakeUp panics exactly if the state it reads is Stopped; otherwise it goes on to send. */
  lemma WakeUpPanicsIff(r: seq<Sys>, k: nat, m: nat, t: Tid)
    requires IsRun(r) && m == k + 1 && m < |r| && t in r[k].pcs && t in r[m].pcs
    requires r[k].pcs[t] == Out && (r[m].pcs[t] == WakeSend || r[m].pcs[t] == WakePanicked)
    ensures r[m].pcs[t] == WakePanicked <==> r[k].once.sh.state == O.Stopped
  {
    NextSeen(r, k, m, t);
  }

  predicate Sends(pc: Pc) {
    pc == WakeSend || pc == GuardedSend
  }

  /** Sending leaves a token in the queue, whether or not one was there, and is a wake-up. */
  lemma SendLeavesToken(r: seq<Sys>, k: nat, m: nat, t: Tid)
    requires IsRun(r) && m == k + 1 && m < |r| && t in r[k].pcs && t in r[m].pcs
    requires Sends(r[k].pcs[t]) && r[m].pcs[t] != r[k].pcs[t]
    ensures r[m].pcs[t] == Out && r[m].h.queue && r[m].h.log == r[k].h.log + [Wake]
  {
    NextSeen(r, k, m, t);
  }

  /** A caller that is in no call can wake the task up, and sending never blocks. */
  lemma WakeUpDoesNotBlock(s: Sys, t: Tid)
    requires t in s.pcs && t in s.once.pcs
    ensures s.pcs[t] == Out && (s.once.pcs[t].Idle? || s.once.pcs[t].Returned?) ==>
              Next(s, s.(pcs := s.pcs[t := if s.once.sh.state == O.Stopped then WakePanicked else WakeSend]))
    ensures s.pcs[t] == WakeSend && (s.once.pcs[t].Idle? || s.once.pcs[t].Returned?) ==>
              Next(s, Sys(s.once, Send(s.h), s.pcs[t := Out]))
    ensures s.pcs[t] == GuardedSend && s.once.pcs[t].IfStartedInBody? ==>
              Next(s, Sys(s.once, Send(s.h), s.pcs[t := Out]))
  {
    var begun := s.(pcs := s.pcs[t := if s.once.sh.state == O.Stopped then WakePanicked else WakeSend]);
    var sent := Sys(s.once, Send(s.h), s.pcs[t := Out]);
    if s.once.pcs[t].Idle? || s.once.pcs[t].Returned? {
      assert s.pcs[t] == Out ==> OwnStep(s, begun, t);
      assert s.pcs[t] == WakeSend ==> OwnStep(s, sent, t);
    } else if s.once.pcs[t].IfStartedInBody? {
      assert s.pcs[t] == GuardedSend ==> OwnStep(s, sent, t);
    }
  }

  // ----- WakeUpIfStarted -----

  ghost predicate SendsAt(r: seq<Sys>, k: nat, t: Tid) {
    k + 1 < |r| && t in r[k].pcs && t in r[k + 1].pcs && r[k].pcs[t] == GuardedSend && r[k + 1].pcs[t] == Out
  }

  ghost predicate SentBetween(r: seq<Sys>, i: nat, j: nat, t: Tid) {
    exists k: nat | i <= k < j :: SendsAt(r, k, t)
  }

  lemma SentOneMore(r: seq<Sys>, i: nat, m: nat, j: nat, t: Tid)
    requires i <= m && j == m + 1
    ensures SentBetween(r, i, j, t) == (SentBetween(r, i, m, t) || SendsAt(r, m, t))
  {
    if SentBetween(r, i, j, t) {
      var k: nat :| i <= k < j && SendsAt(r, k, t);
      assert k == m || k < m;
    }
  }

  /** The call has sent. */
  predicate Sent(opc: O.Pc, pc: Pc) {
    (opc.IfStartedInBody? && pc == Out) || opc == O.GuardAtUnlock(true) || opc == O.Returned(O.Guarded(true))
  }

  lemma GateSends(s: Sys, s': Sys, t: Tid)
    requires GateStep(s, s', t) && L.InGuarded(L.WhenStarted, s.once.pcs[t]) && Pair(s.once.pcs[t], s.pcs[t])
    ensures Sent(s'.once.pcs[t], s'.pcs[t]) == Sent(s.once.pcs[t], s.pcs[t])
    ensures !(s.pcs[t] == GuardedSend && s'.pcs[t] == Out)
  {
    L.GuardedStep(t, s.once.sh, s.once.pcs[t], s'.once.sh, s'.once.pcs[t], L.WhenStarted);
  }

  lemma OwnSends(s: Sys, s': Sys, t: Tid)
    requires OwnStep(s, s', t) && L.InGuarded(L.WhenStarted, s.once.pcs[t])
    ensures s.pcs[t] == GuardedSend && s'.pcs[t] == Out && Sent(s'.once.pcs[t], s'.pcs[t])
  {
  }

  lemma SentStep(r: seq<Sys>, k: nat, m: nat, t: Tid)
    requires IsRun(r) && m == k + 1 && m < |r| && t in r[k].pcs && t in r[k].once.pcs
    requires L.InGuarded(L.WhenStarted, r[k].once.pcs[t])
    ensures t in r[m].pcs && t in r[m].once.pcs
    ensures Sent(r[m].once.pcs[t], r[m].pcs[t]) == (Sent(r[k].once.pcs[t], r[k].pcs[t]) || SendsAt(r, k, t))
  {
    NextSeen(r, k, m, t);
    if GateStep(r[k], r[m], t) {
      GateSends(r[k], r[m], t);
    } else if OwnStep(r[k], r[m], t) {
      OwnSends(r[k], r[m], t);
    }
  }

  lemma {:induction false} SentIff(r: seq<Sys>, i: nat, j: nat, t: Tid)
    requires IsRun(r) && L.IsGuardedCall(Guards(r), i, j, t, L.WhenStarted)
    ensures j < |r| && t in r[j].pcs && t in r[j].once.pcs
    ensures Sent(r[j].once.pcs[t], r[j].pcs[t]) == SentBetween(r, i, j, t)
    decreases j - i
  {
    var g := Guards(r);
    if i == j {
      L.CallBegins(g, i, t, L.WhenStarted);
      assert r[i].once == g[i];
      RunInv(r, i);
    } else {
      var m := j - 1;
      L.GuardedUpTo(g, i, j, t, L.WhenStarted);
      assert r[m].once == g[m];
      SentIff(r, i, m, t);
      SentStep(r, m, j, t);
      SentOneMore(r, i, m, j, t);
    }
  }

  /** WakeUpIfStarted sends exactly if the state is Started while it holds the read lock, and tells so to its guard. */
  lemma WakeUpIfStartedSendsIff(r: seq<Sys>, i: nat, j: nat, t: Tid, ran: bool)
    requires IsRun(r) && L.IsGuardedCall(Guards(r), i, j, t, L.WhenStarted)
    requires L.IsAt(Guards(r), j, t, O.Returned(O.Guarded(ran)))
    ensures ran == SentBetween(r, i, j, t)
    ensures exists k: nat | i <= k <= j :: L.Reads(Guards(r), k, t)
    ensures forall k: nat | i <= k <= j && L.Reads(Guards(r), k, t) :: ran == (Guards(r)[k].sh.state == O.Started)
  {
    SentIff(r, i, j, t);
    GuardTrace(r);
    L.GuardedIff(Guards(r), i, j, t, L.WhenStarted, ran);
  }

  // ----- Stop -----

  /** Once the stop channel is closed, a waiting worker can leave, also past a token; one that leaves can end; and then
      a Stop that waits for it can return nil. */
  lemma StopCanEnd(s: Sys, t: Tid)
    requires Inv(s) && t in s.pcs && s.h.stop
    ensures s.h.worker == Waiting ==> Next(s, s.(h := s.h.(worker := Leaving)))
    ensures s.h.worker == Leaving ==> Next(s, s.(h := s.h.(worker := Exited, done := true)))
    ensures s.h.done && s.pcs[t] == StopAwait ==> Next(s, s.(pcs := s.pcs[t := BodyDone(true)]))
    ensures s.pcs[t] == StopAwait ==> Next(s, s.(pcs := s.pcs[t := BodyDone(false)]))
  {
    if s.h.worker == Waiting {
      assert LoopStep(s, s.(h := s.h.(worker := Leaving)));
    } else if s.h.worker == Leaving {
      assert LoopStep(s, s.(h := s.h.(worker := Exited, done := true)));
    }
    if s.pcs[t] == StopAwait {
      assert Fits(s.once.pcs[t], s.h, s.pcs[t]);
      assert OwnStep(s, s.(pcs := s.pcs[t := BodyDone(false)]), t);
      assert s.h.done ==> OwnStep(s, s.(pcs := s.pcs[t := BodyDone(true)]), t);
    }
  }

  /** Stop closes the stop channel, and while the worker has not left it can only end in an error. */
  lemma StopTellsWorker(r: seq<Sys>, k: nat, m: nat, t: Tid)
    requires IsRun(r) && m == k + 1 && m < |r| && t in r[k].pcs && t in r[m].pcs && r[m].pcs[t] != r[k].pcs[t]
    ensures r[k].pcs[t] == StopClose ==> r[m].pcs[t] == StopAwait && r[m].h.stop
    ensures r[k].pcs[t] == StopAwait ==>
              r[m].pcs[t] == BodyDone(false) || (r[m].pcs[t] == BodyDone(true) && r[k].h.worker == Exited)
  {
    NextSeen(r, k, m, t);
    RunInv(r, k);
  }
}
