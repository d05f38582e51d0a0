/** Services and the starter of core/services/multi.go, which closes what it started when a start fails. */
module Services {
  /** The calls on services, with their outcomes, in the order they happened. */
  datatype Event<C> = Started(service: Service<C>, ok: bool) | Closed(service: Service<C>, ok: bool)

  /** Whether a call on a service succeeds is up to the service: `fates` says it of the n-th call. */
  class Journal<C> {
    var events: seq<Event<C>>
    const fates: nat -> bool

    constructor (fates: nat -> bool)
      ensures events == [] && this.fates == fates
    {
      this.fates := fates;
      events := [];
    }
  }

  class Service<C> {
    var config: C

    constructor (config: C)
      ensures this.config == config
    {
      this.config := config;
    }

    method Start(j: Journal<C>) returns (ok: bool)
      modifies j
      ensures ok == j.fates(|old(j.events)|)
      ensures j.events == old(j.events) + [Started(this, ok)]
    {
      ok := j.fates(|j.events|);
      j.events := j.events + [Started(this, ok)];
    }

    method Close(j: Journal<C>) returns (ok: bool)
      modifies j
      ensures ok == j.fates(|old(j.events)|)
      ensures j.events == old(j.events) + [Closed(this, ok)]
    {
      ok := j.fates(|j.events|);
      j.events := j.events + [Closed(this, ok)];
    }

    method UpdateConfig(config: C)
      modifies this
      ensures this.config == config
    {
      this.config := config;
    }
  }

  /** Each is started in order, from the n-th call on. */
  function Starts<C>(ss: seq<Service<C>>, fates: nat -> bool, n: nat): (es: seq<Event<C>>)
    ensures |es| == |ss|
  {
    seq(|ss|, i requires 0 <= i < |ss| => Started(ss[i], fates(n + i)))
  }

  /** Each is closed in reverse order, from the n-th call on. */
  function Closes<C>(ss: seq<Service<C>>, fates: nat -> bool, n: nat): (es: seq<Event<C>>)
    ensures |es| == |ss|
  {
    seq(|ss|, i requires 0 <= i < |ss| => Closed(ss[|ss| - 1 - i], fates(n + i)))
  }

  /** All of `count` calls from the n-th on succeed. */
  ghost predicate AllGood(fates: nat -> bool, n: nat, count: nat) {
    forall i: nat | n <= i < n + count :: fates(i)
  }

  class MultiStart<C> {
    var started: seq<Service<C>>

    constructor ()
      ensures started == []
    {
      started := [];
    }

    /** Every service is closed, whether or not closing an earlier one fails, and the errors add up. */
    method Close(j: Journal<C>) returns (ok: bool)
      modifies j
      ensures j.events == old(j.events) + Closes(started, j.fates, |old(j.events)|)
      ensures ok == AllGood(j.fates, |old(j.events)|, |started|)
    {
      ok := true;
      var i := |started| - 1;
      while i >= 0
        invariant -1 <= i < |started|
        invariant j.events == old(j.events) + Closes(started, j.fates, |old(j.events)|)[..|started| - 1 - i]
        invariant ok == AllGood(j.fates, |old(j.events)|, |started| - 1 - i)
      {
        var closed := started[i].Close(j);
        ok := ok && closed;
        i := i - 1;
      }
    }

    /** A service that fails to start takes everything with it that was started before. */
    method StartOne(s: Service<C>, j: Journal<C>) returns (ok: bool)
      modifies this, j
      ensures ok == j.fates(|old(j.events)|)
      ensures ok ==> started == old(started) + [s] && j.events == old(j.events) + [Started(s, true)]
      ensures !ok ==> started == old(started)
      ensures !ok ==>
                j.events == old(j.events) + [Started(s, false)] + Closes(started, j.fates, |old(j.events)| + 1)
    {
      ok := s.Start(j);
      if !ok {
        var _ := Close(j);
      } else {
        started := started + [s];
      }
    }

    method Start(services: seq<Service<C>>, j: Journal<C>) returns (ok: bool, ghost k: nat)
      modifies this, j
      ensures AllOrNothing(services, old(started), j.fates, old(j.events), j.events, ok, k)
      ensures started == old(started) + services[..k]
    {
      ghost var was, earlier := j.events, started;
      k := 0;
      for i := 0 to |services|
        invariant k == i && started == earlier + services[..i]
        invariant SoFar(services, j.fates, was, j.events, i)
      {
        ghost var now := j.events;
        ok := StartOne(services[i], j);
        if !ok {
          StopsThere(services, earlier, j.fates, was, now, j.events, i);
          return false, i;
        }
        OneMoreStarted(services, j.fates, was, now, i);
        assert services[..i + 1] == services[..i] + [services[i]];
        k := i + 1;
      }
      ok := true;
      AllStarted(services, earlier, j.fates, was, j.events);
      assert services[..|services|] == services;
    }
  }

  /** What a failed start of these services, begun at the n-th call, leaves in the journal: all but the last of them
      started, the last failed, and what was started closed. */
  function FailedStart<C>(ss: seq<Service<C>>, started: seq<Service<C>>, fates: nat -> bool, n: nat)
    : (es: seq<Event<C>>)
    ensures |es| == |ss| + |started|
  {
    Starts(ss, fates, n) + Closes(started, fates, n + |ss|)
  }

  /** All or nothing: each service is started in order, or the first k are, the next one fails, and then these and the
      earlier ones are closed. */
  ghost predicate AllOrNothing<C>(ss: seq<Service<C>>, earlier: seq<Service<C>>, fates: nat -> bool,
      was: seq<Event<C>>, now: seq<Event<C>>, ok: bool, k: nat)
  {
    && k <= |ss| && (ok <==> k == |ss|)
    && AllGood(fates, |was|, k) && (!ok ==> !fates(|was| + k))
    && now == was + if ok then Starts(ss, fates, |was|)
                    else FailedStart(ss[..k + 1], earlier + ss[..k], fates, |was|)
  }

  /** The first i are started. */
  ghost predicate SoFar<C>(ss: seq<Service<C>>, fates: nat -> bool, was: seq<Event<C>>, now: seq<Event<C>>, i: nat) {
    i <= |ss| && AllGood(fates, |was|, i) && now == was + Starts(ss[..i], fates, |was|)
  }

  lemma OneMoreStarted<C>(ss: seq<Service<C>>, fates: nat -> bool, was: seq<Event<C>>, now: seq<Event<C>>, i: nat)
    requires SoFar(ss, fates, was, now, i) && i < |ss| && fates(|now|)
    ensures SoFar(ss, fates, was, now + [Started(ss[i], true)], i + 1)
  {
    assert ss[..i + 1] == ss[..i] + [ss[i]];
    StartsAppend(ss[..i], ss[i], fates, |was|);
  }

  lemma StopsThere<C>(ss: seq<Service<C>>, earlier: seq<Service<C>>, fates: nat -> bool, was: seq<Event<C>>,
      now: seq<Event<C>>, after: seq<Event<C>>, i: nat)
    requires SoFar(ss, fates, was, now, i) && i < |ss| && !fates(|now|)
    requires after == now + [Started(ss[i], false)] + Closes(earlier + ss[..i], fates, |now| + 1)
    ensures AllOrNothing(ss, earlier, fates, was, after, false, i)
  {
    assert ss[..i + 1] == ss[..i] + [ss[i]];
    StartsAppend(ss[..i], ss[i], fates, |was|);
  }

  lemma AllStarted<C>(ss: seq<Service<C>>, earlier: seq<Service<C>>, fates: nat -> bool, was: seq<Event<C>>,
      now: seq<Event<C>>)
    requires SoFar(ss, fates, was, now, |ss|)
    ensures AllOrNothing(ss, earlier, fates, was, now, true, |ss|)
  {
    assert ss[..|ss|] == ss;
  }

  lemma StartsAppend<C>(ss: seq<Service<C>>, s: Service<C>, fates: nat -> bool, n: nat)
    ensures Starts(ss + [s], fates, n) == Starts(ss, fates, n) + [Started(s, fates(n + |ss|))]
  {
  }

  function Count<C>(es: seq<Event<C>>, e: Event<C>): nat {
    multiset(es)[e]
  }

  /** How often a service was closed, whatever came of it. */
  function Closings<C>(es: seq<Event<C>>, s: Service<C>): nat {
    Count(es, Closed(s, true)) + Count(es, Closed(s, false))
  }

  predicate Distinct<C>(ss: seq<Service<C>>) {
    forall i, j | 0 <= i < j < |ss| :: ss[i] != ss[j]
  }

  lemma CountJoined<C>(a: seq<Event<C>>, b: seq<Event<C>>, e: Event<C>)
    ensures Count(a + b, e) == Count(a, e) + Count(b, e)
  {
  }

  lemma CountOne<C>(x: Event<C>, e: Event<C>)
    ensures Count([x], e) == if x == e then 1 else 0
  {
  }

  lemma {:induction false} StartedOnce<C>(ss: seq<Service<C>>, fates: nat -> bool, n: nat, s: Service<C>)
    requires Distinct(ss) && AllGood(fates, n, |ss|)
    ensures Count(Starts(ss, fates, n), Started(s, true)) == if s in ss then 1 else 0
    ensures Count(Starts(ss, fates, n), Started(s, false)) == Closings(Starts(ss, fates, n), s) == 0
  {
    if ss != [] {
      var front, last := ss[..|ss| - 1], ss[|ss| - 1];
      assert ss == front + [last];
      StartsAppend(front, last, fates, n);
      StartedOnce(front, fates, n, s);
    } else {
      assert Starts(ss, fates, n) == [];
    }
  }

  lemma ClosesPrepend<C>(ss: seq<Service<C>>, s: Service<C>, fates: nat -> bool, n: nat)
    ensures Closes(ss + [s], fates, n) == [Closed(s, fates(n))] + Closes(ss, fates, n + 1)
  {
  }

  lemma {:induction false} ClosedOnce<C>(ss: seq<Service<C>>, fates: nat -> bool, n: nat, s: Service<C>, ok: bool)
    requires Distinct(ss)
    ensures Closings(Closes(ss, fates, n), s) == if s in ss then 1 else 0
    ensures Count(Closes(ss, fates, n), Started(s, ok)) == 0
    decreases |ss|
  {
    if ss != [] {
      var front, last := ss[..|ss| - 1], ss[|ss| - 1];
      var e := Closed(last, fates(n));
      assert ss == front + [last];
      ClosesPrepend(front, last, fates, n);
      ClosedOnce(front, fates, n + 1, s, ok);
      CountJoined([e], Closes(front, fates, n + 1), Closed(s, true));
      CountJoined([e], Closes(front, fates, n + 1), Closed(s, false));
      CountJoined([e], Closes(front, fates, n + 1), Started(s, ok));
    } else {
      assert Closes(ss, fates, n) == [];
    }
  }

  predicate ClosedAt<C>(es: seq<Event<C>>, i: nat, s: Service<C>) {
    i < |es| && es[i].Closed? && es[i].service == s
  }

  lemma RollbackOrder<C>(ss: seq<Service<C>>, fates: nat -> bool, n: nat)
    requires ss != [] && AllGood(fates, n, |ss| - 1) && !fates(n + |ss| - 1)
    ensures var es, k := FailedStart(ss, ss[..|ss| - 1], fates, n), |ss| - 1;
      && es[k] == Started(ss[k], false)
      && (forall i | 0 <= i < k :: es[i] == Started(ss[i], true))
      && (forall i | 0 <= i < k :: ClosedAt(es, 2 * k - i, ss[i]))
  {
  }

  lemma CountParts<C>(a: seq<Event<C>>, x: Event<C>, b: seq<Event<C>>, e: Event<C>)
    ensures Count((a + [x]) + b, e) == Count(a, e) + (if x == e then 1 else 0) + Count(b, e)
  {
    CountOne(x, e);
    CountJoined(a + [x], b, e);
    CountJoined(a, [x], e);
  }

  lemma CountFailed<C>(ss: seq<Service<C>>, fates: nat -> bool, n: nat, front: seq<Service<C>>, e: Event<C>)
    requires ss != [] && front == ss[..|ss| - 1]
    ensures Count(FailedStart(ss, ss[..|ss| - 1], fates, n), e) ==
            Count(Starts(front, fates, n), e)
            + (if Started(ss[|ss| - 1], fates(n + |ss| - 1)) == e then 1 else 0)
            + Count(Closes(front, fates, n + |ss|), e)
  {
    var last := ss[|ss| - 1];
    assert ss == front + [last];
    StartsAppend(front, last, fates, n);
    CountParts(Starts(front, fates, n), Started(last, fates(n + |ss| - 1)), Closes(front, fates, n + |ss|), e);
  }

  lemma DistinctFront<C>(ss: seq<Service<C>>, front: seq<Service<C>>)
    requires ss != [] && Distinct(ss) && front == ss[..|ss| - 1]
    ensures Distinct(front) && ss[|ss| - 1] !in front
  {
  }

  lemma StartsCounted<C>(ss: seq<Service<C>>, fates: nat -> bool, n: nat, front: seq<Service<C>>, s: Service<C>)
    requires ss != [] && Distinct(ss) && AllGood(fates, n, |ss| - 1) && !fates(n + |ss| - 1)
    requires front == ss[..|ss| - 1]
    ensures Count(FailedStart(ss, ss[..|ss| - 1], fates, n), Started(s, true)) == if s in front then 1 else 0
    ensures Count(FailedStart(ss, ss[..|ss| - 1], fates, n), Started(s, false)) == if s == ss[|ss| - 1] then 1 else 0
  {
    DistinctFront(ss, front);
    StartedOnce(front, fates, n, s);
    ClosedOnce(front, fates, n + |ss|, s, true);
    ClosedOnce(front, fates, n + |ss|, s, false);
    CountFailed(ss, fates, n, front, Started(s, true));
    CountFailed(ss, fates, n, front, Started(s, false));
  }

  lemma ClosesCounted<C>(ss: seq<Service<C>>, fates: nat -> bool, n: nat, front: seq<Service<C>>, s: Service<C>)
    requires ss != [] && Distinct(ss) && AllGood(fates, n, |ss| - 1) && front == ss[..|ss| - 1]
    ensures Closings(FailedStart(ss, ss[..|ss| - 1], fates, n), s) == if s in front then 1 else 0
  {
    DistinctFront(ss, front);
    StartedOnce(front, fates, n, s);
    ClosedOnce(front, fates, n + |ss|, s, true);
    CountFailed(ss, fates, n, front, Closed(s, true));
    CountFailed(ss, fates, n, front, Closed(s, false));
  }

  /** A failed start of distinct services: each one it started is closed exactly once, the last started first, and the
      one that failed is not closed. */
  lemma RollbackMirrors<C>(ss: seq<Service<C>>, fates: nat -> bool, n: nat, s: Service<C>)
    requires ss != [] && Distinct(ss) && AllGood(fates, n, |ss| - 1) && !fates(n + |ss| - 1)
    ensures var es, k := FailedStart(ss, ss[..|ss| - 1], fates, n), |ss| - 1;
      && es[k] == Started(ss[k], false)
      && (forall i | 0 <= i < k :: es[i] == Started(ss[i], true))
      && (forall i | 0 <= i < k :: ClosedAt(es, 2 * k - i, ss[i]))
      && Count(es, Started(s, true)) == Closings(es, s) == (if s in ss[..k] then 1 else 0)
      && Count(es, Started(s, false)) == if s == ss[k] then 1 else 0
  {
    RollbackOrder(ss, fates, n);
    StartsCounted(ss, fates, n, ss[..|ss| - 1], s);
    ClosesCounted(ss, fates, n, ss[..|ss| - 1], s);
  }
}
