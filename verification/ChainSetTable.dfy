/** The chain set of core/chains/chain_set.go against its table. Add, Configure and Remove hold chainsMu throughout, and
    so does Chain when it has to create a chain, so they are taken here one at a time; ids are taken in their formatted
    form. */
module ChainSetTable {
  import opened Wrappers
  import O = StartStopOnce
  import S = Services

  datatype Row<C> = Row(cfg: C, enabled: bool)

  /** The table, and the configuration each chain in memory runs with. */
  datatype State<C> = State(table: map<string, Row<C>>, live: map<string, C>)

  datatype Reply =
    | Nil
    | Unsupported | EmptyId | NotReady | InvalidId | Exists
    | DatabaseError | InitFailed | CloseFailed

  datatype Call<C> =
    | Chain(id: string, ready: bool)
    | Add(id: string, cfg: C)
    | Configure(id: string, enabled: bool, cfg: C)
    | Remove(id: string)

  /** What the code does not decide: whether the database answers, whether making a service succeeds, and whether the
      one call on a service that may follow does. */
  datatype Outside = Outside(db: bool, makes: bool, service: bool)

  // ----- What each call does -----

  /** The chain is put into memory if it can be made and started. */
  function Initialized<C>(live: map<string, C>, id: string, cfg: C, o: Outside): (map<string, C>, Reply) {
    if o.makes && o.service then (live[id := cfg], Nil) else (live, InitFailed)
  }

  /** After the row is updated: close, create, or update the chain in memory. */
  function Toggled<C>(live: map<string, C>, id: string, enabled: bool, cfg: C, o: Outside): (map<string, C>, Reply) {
    if id in live && !enabled then (live - {id}, if o.service then Nil else CloseFailed)
    else if id !in live && enabled then Initialized(live, id, cfg, o)
    else if id in live then (live[id := cfg], Nil)
    else (live, Nil)
  }

  function ChainStep<C>(s: State<C>, id: string, ready: bool, o: Outside): (State<C>, Reply) {
    if id == "" then (s, EmptyId)
    else if !ready then (s, NotReady)
    else if id in s.live then (s, Nil)
    else if !o.db then (s, DatabaseError)
    else if id !in s.table then (s, InvalidId)
    else var (live, r) := Initialized(s.live, id, s.table[id].cfg, o); (State(s.table, live), r)
  }

  function AddStep<C>(s: State<C>, id: string, cfg: C, o: Outside): (State<C>, Reply) {
    if id in s.live then (s, Exists)
    else if !o.db || id in s.table then (s, DatabaseError)
    else var (live, r) := Initialized(s.live, id, cfg, o); (State(s.table[id := Row(cfg, true)], live), r)
  }

  function ConfigureStep<C>(s: State<C>, id: string, enabled: bool, cfg: C, o: Outside): (State<C>, Reply) {
    if !o.db || id !in s.table then (s, DatabaseError)
    else var (live, r) := Toggled(s.live, id, enabled, cfg, o); (State(s.table[id := Row(cfg, enabled)], live), r)
  }

  function RemoveStep<C>(s: State<C>, id: string, o: Outside): (State<C>, Reply) {
    if !o.db || id !in s.table then (s, DatabaseError)
    else (State(s.table - {id}, s.live - {id}), if id in s.live && !o.service then CloseFailed else Nil)
  }

  function Step<C>(immutable: bool, s: State<C>, call: Call<C>, o: Outside): (State<C>, Reply) {
    if immutable && !call.Chain? then (s, Unsupported) else
    match call
    case Chain(id, ready) => ChainStep(s, id, ready, o)
    case Add(id, cfg) => AddStep(s, id, cfg, o)
    case Configure(id, enabled, cfg) => ConfigureStep(s, id, enabled, cfg, o)
    case Remove(id) => RemoveStep(s, id, o)
  }

  // ----- The set agrees with its table -----

  ghost predicate Agrees<C>(s: State<C>) {
    forall id | id in s.live :: id in s.table && s.live[id] == s.table[id].cfg
  }

  ghost predicate OnlyEnabled<C>(s: State<C>) {
    forall id | id in s.live :: id in s.table && s.table[id].enabled
  }

  /** NewChainSet makes a service for every enabled row. */
  function Loaded<C>(table: map<string, Row<C>>): State<C> {
    State(table, map id | id in table && table[id].enabled :: table[id].cfg)
  }

  datatype Event<C> = Event(call: Call<C>, outside: Outside)

  function After<C>(immutable: bool, start: State<C>, es: seq<Event<C>>): State<C> {
    if es == [] then start else
    var e := es[|es| - 1];
    Step(immutable, After(immutable, start, es[..|es| - 1]), e.call, e.outside).0
  }

  lemma StepAgrees<C>(immutable: bool, s: State<C>, call: Call<C>, o: Outside)
    requires Agrees(s)
    ensures Agrees(Step(immutable, s, call, o).0)
  {
  }

  /** After any run, whenever the lock is free, every chain in memory has a row and runs with the configuration of that
      row: of a mutable set, which starts with its enabled rows loaded, and of an immutable one, if that is how it was
      given. */
  lemma {:induction false} RunAgrees<C>(immutable: bool, start: State<C>, es: seq<Event<C>>)
    requires if immutable then Agrees(start) else start == Loaded(start.table)
    ensures Agrees(After(immutable, start, es))
  {
    if es == [] {
    } else {
      var before, e := es[..|es| - 1], es[|es| - 1];
      RunAgrees(immutable, start, before);
      StepAgrees(immutable, After(immutable, start, before), e.call, e.outside);
    }
  }

  // ----- What the caller of each call can rely on -----

  /** Only the entry of `id` may differ. */
  ghost predicate Elsewhere<C>(s: State<C>, s': State<C>, id: string) {
    s'.table - {id} == s.table - {id} && s'.live - {id} == s.live - {id}
  }

  /** A ready set gives out every chain in memory, and makes the others from their rows, enabled or not; when it
      refuses, nothing changed. */
  lemma ChainGives<C>(immutable: bool, s: State<C>, id: string, ready: bool, o: Outside)
    ensures var (s', r) := Step(immutable, s, Chain(id, ready), o);
      && (r == Nil <==>
            id != "" && ready && (id in s.live || (o.db && id in s.table && o.makes && o.service)))
      && (r == Nil ==> id in s'.live && s'.live[id] == if id in s.live then s.live[id] else s.table[id].cfg)
      && (r != Nil ==> s' == s)
      && s'.table == s.table && Elsewhere(s, s', id)
  {
  }

  /** Add succeeds exactly if the chain is in neither place and nothing outside fails; then it is in both, enabled. If
      only making or starting it fails, the row stays. */
  lemma AddGives<C>(s: State<C>, id: string, cfg: C, o: Outside)
    ensures var (s', r) := Step(false, s, Add(id, cfg), o);
      && (r == Nil <==> id !in s.live && id !in s.table && o.db && o.makes && o.service)
      && (r == Nil ==> s' == State(s.table[id := Row(cfg, true)], s.live[id := cfg]))
      && (r == InitFailed <==> id !in s.live && id !in s.table && o.db && !(o.makes && o.service))
      && (r == InitFailed ==> s' == s.(table := s.table[id := Row(cfg, true)]))
      && (r != Nil && r != InitFailed ==> s' == s && r == if id in s.live then Exists else DatabaseError)
  {
  }

  /** A Configure that returns nil leaves the chain in memory exactly if it is enabled, running the new
      configuration. */
  lemma ConfigureNil<C>(s: State<C>, id: string, enabled: bool, cfg: C, o: Outside)
    requires Step(false, s, Configure(id, enabled, cfg), o).1 == Nil
    ensures var s' := Step(false, s, Configure(id, enabled, cfg), o).0;
      && id in s'.table && s'.table[id] == Row(cfg, enabled)
      && (id in s'.live <==> enabled) && (enabled ==> s'.live[id] == cfg)
      && Elsewhere(s, s', id)
  {
  }

  /** A Configure fails exactly if the row cannot be updated, or then the chain that is to run cannot be made or
      started, or the one that is to go reports an error; but for the first, the row is updated and the chain out of
      memory. */
  lemma ConfigureFailed<C>(s: State<C>, id: string, enabled: bool, cfg: C, o: Outside)
    ensures var (s', r) := Step(false, s, Configure(id, enabled, cfg), o);
      && (r == DatabaseError <==> !o.db || id !in s.table)
      && (r == InitFailed <==> r != DatabaseError && enabled && id !in s.live && !(o.makes && o.service))
      && (r == CloseFailed <==> r != DatabaseError && !enabled && id in s.live && !o.service)
      && r in {Nil, DatabaseError, InitFailed, CloseFailed}
      && (r == DatabaseError ==> s' == s)
      && (r == InitFailed || r == CloseFailed ==>
            id !in s'.live && s'.table == s.table[id := Row(cfg, enabled)] && Elsewhere(s, s', id))
  {
  }

  /** Remove deletes the row unless the database fails or has none; then the chain is out of memory, and an error of its
      Close is reported. */
  lemma RemoveLeavesNothing<C>(s: State<C>, id: string, o: Outside)
    ensures var (s', r) := Step(false, s, Remove(id), o);
      && (r == DatabaseError <==> !o.db || id !in s.table)
      && (r == CloseFailed <==> r != DatabaseError && id in s.live && !o.service)
      && r in {Nil, DatabaseError, CloseFailed}
      && (r == DatabaseError ==> s' == s)
      && (r != DatabaseError ==> id !in s'.live && id !in s'.table && Elsewhere(s, s', id))
  {
  }

  /** An immutable set refuses all changes. */
  lemma ImmutableRefuses<C>(s: State<C>, call: Call<C>, o: Outside)
    ensures Step(true, s, call, o).1 == Unsupported <==> !call.Chain?
    ensures Step(true, s, call, o).1 == Unsupported ==> Step(true, s, call, o).0 == s
  {
  }

  /** A call that makes a chain for a row that is disabled. */
  predicate RevivesDisabled<C>(s: State<C>, call: Call<C>) {
    call.Chain? && call.ready && call.id != "" && call.id in s.table && !s.table[call.id].enabled
  }

  lemma RevivedIsNotEnabled<C>(immutable: bool, s: State<C>, call: Call<C>)
    requires OnlyEnabled(s) && RevivesDisabled(s, call)
    ensures var s' := s.(live := s.live[call.id := s.table[call.id].cfg]);
      Step(immutable, s, call, Outside(true, true, true)) == (s', Nil) && !OnlyEnabled(s')
  {
    var s' := s.(live := s.live[call.id := s.table[call.id].cfg]);
    assert call.id in s'.live;
  }

  lemma OthersKeepOnlyEnabled<C>(immutable: bool, s: State<C>, call: Call<C>, o: Outside)
    requires OnlyEnabled(s) && !RevivesDisabled(s, call)
    ensures OnlyEnabled(Step(immutable, s, call, o).0)
  {
  }

  /** The chains in memory need not stay among the enabled rows: a call can end that exactly if it is a Chain, on a set
      that is ready, for a row that is disabled. */
  lemma OnlyEnabledEndsIff<C>(immutable: bool, s: State<C>, call: Call<C>)
    requires OnlyEnabled(s)
    ensures (exists o :: !OnlyEnabled(Step(immutable, s, call, o).0)) <==> RevivesDisabled(s, call)
  {
    if RevivesDisabled(s, call) {
      RevivedIsNotEnabled(immutable, s, call);
      assert !OnlyEnabled(Step(immutable, s, call, Outside(true, true, true)).0);
    } else {
      forall o
        ensures OnlyEnabled(Step(immutable, s, call, o).0)
      {
        OthersKeepOnlyEnabled(immutable, s, call, o);
      }
    }
  }

  /** Such a call: the row is disabled, and the chain runs. */
  lemma DisabledChainRuns(immutable: bool, cfg: int)
    ensures var s := Loaded(map["x" := Row(cfg, false)]);
      && s.live == map[] && OnlyEnabled(s)
      && Step(immutable, s, Chain("x", true), Outside(true, true, true)) == (s.(live := map["x" := cfg]), Nil)
      && !OnlyEnabled(s.(live := map["x" := cfg]))
  {
    var s := Loaded(map["x" := Row(cfg, false)]);
    RevivedIsNotEnabled(immutable, s, Chain("x", true));
    assert s.live["x" := cfg] == map["x" := cfg];
  }

  // ----- The set itself -----

  ghost predicate Lists(order: seq<string>, ids: set<string>) {
    && (forall id :: id in order <==> id in ids)
    && (forall i, j | 0 <= i < j < |order| :: order[i] != order[j])
  }

  ghost predicate Among(order: seq<string>, ids: set<string>) {
    forall i | 0 <= i < |order| :: order[i] in ids
  }

  ghost function Named<C>(chains: map<string, S.Service<C>>, order: seq<string>): (ss: seq<S.Service<C>>)
    requires Among(order, chains.Keys)
  {
    seq(|order|, i requires 0 <= i < |order| => chains[order[i]])
  }

  lemma NamedAppend<C>(chains: map<string, S.Service<C>>, order: seq<string>, i: nat)
    requires Among(order, chains.Keys) && i < |order|
    ensures Named(chains, order[..i + 1]) == Named(chains, order[..i]) + [chains[order[i]]]
  {
  }

  lemma NamedDistinct<C>(chains: map<string, S.Service<C>>, order: seq<string>)
    requires Lists(order, chains.Keys)
    requires forall i, k | i in chains && k in chains && i != k :: chains[i] != chains[k]
    ensures forall n | 0 <= n <= |order| :: S.Distinct(Named(chains, order[..n]))
  {
    assert forall n | 0 <= n < |order| :: order[n] in order;
  }

  /** The chains are closed one after the other, from the n-th call on services. */
  ghost function Closings<C>(ss: seq<S.Service<C>>, fates: nat -> bool, n: nat): (es: seq<S.Event<C>>)
    ensures |es| == |ss|
  {
    seq(|ss|, i requires 0 <= i < |ss| => S.Closed(ss[i], fates(n + i)))
  }

  lemma ClosingsAppend<C>(ss: seq<S.Service<C>>, s: S.Service<C>, fates: nat -> bool, n: nat)
    ensures Closings(ss + [s], fates, n) == Closings(ss, fates, n) + [S.Closed(s, fates(n + |ss|))]
  {
  }

  /** All or nothing, for one service. */
  lemma StartedAlone<C>(s: S.Service<C>, earlier: seq<S.Service<C>>, fates: nat -> bool, was: seq<S.Event<C>>,
      now: seq<S.Event<C>>, ok: bool, k: nat)
    requires S.AllOrNothing([s], earlier, fates, was, now, ok, k)
    ensures ok == fates(|was|) && k == if ok then 1 else 0
    ensures now == was + [S.Started(s, ok)] + if ok then [] else S.Closes(earlier, fates, |was| + 1)
  {
    assert fates(|was| + 0) == fates(|was|);
    assert S.Starts([s], fates, |was|) == [S.Started(s, fates(|was|))];
    assert k == 0 ==> earlier + [s][..0] == earlier && [s][..1] == [s];
    Joins(was, S.Starts([s], fates, |was|), S.Closes(earlier, fates, |was| + 1));
  }

  lemma Joins<T>(a: seq<T>, b: seq<T>, c: seq<T>)
    ensures a + (b + c) == (a + b) + c
  {
  }

  class ChainSet<C> {
    /** The rows stand for the database. */
    var table: map<string, Row<C>>
    var chains: map<string, S.Service<C>>
    var state: O.State
    const immutable: bool

    ghost predicate Valid()
      reads this
    {
      forall i, k | i in chains && k in chains && i != k :: chains[i] != chains[k]
    }

    /** The configuration each chain in memory runs with. */
    ghost function Live(): (live: map<string, C>)
      reads this`chains, chains.Values
    {
      map id | id in chains :: chains[id].config
    }

    ghost function View(): (s: State<C>)
      reads this, chains.Values
    {
      State(table, Live())
    }

    constructor (table: map<string, Row<C>>, chains: map<string, S.Service<C>>)
      requires forall i, k | i in chains && k in chains && i != k :: chains[i] != chains[k]
      ensures Valid() && state == O.Unstarted && !immutable && this.table == table && this.chains == chains
    {
      this.table, this.chains, immutable, state := table, chains, false, O.Unstarted;
    }

    /** NewChainSet. `order` is the order in which the enabled rows come if the query for them is answered, `broken` are
        the ids for which no service can be made; making goes on after a failure. The half-filled set that comes with
        the error of a failed NewChain is discarded by all callers. */
    static method NewChainSet(table: map<string, Row<C>>, order: seq<string>, db: bool, broken: set<string>)
      returns (cs: Option<ChainSet<C>>)
      requires Lists(order, Loaded(table).live.Keys)
      ensures cs.Some? <==> db && broken !! Loaded(table).live.Keys
      ensures cs.Some? ==> fresh(cs.value) && cs.value.Valid() && cs.value.View() == Loaded(table)
      ensures cs.Some? ==> cs.value.state == O.Unstarted && !cs.value.immutable
    {
      if !db {
        return None;
      }
      var made, failed := LoadAll(table, order, broken);
      if failed {
        return None;
      }
      var chainSet := new ChainSet(table, made);
      cs := Some(chainSet);
    }

    static method LoadAll(table: map<string, Row<C>>, order: seq<string>, broken: set<string>)
      returns (made: map<string, S.Service<C>>, failed: bool)
      requires forall id | id in order :: id in table
      ensures forall id :: id in made <==> id in order && id !in broken
      ensures failed <==> exists id :: id in order && id in broken
      ensures forall id | id in made :: made[id].config == table[id].cfg
      ensures forall i, k | i in made && k in made && i != k :: made[i] != made[k]
    {
      made, failed := map[], false;
      for i := 0 to |order|
        invariant forall id :: id in made <==> id in order[..i] && id !in broken
        invariant failed <==> exists id :: id in order[..i] && id in broken
        invariant forall id | id in made :: id in table && fresh(made[id]) && made[id].config == table[id].cfg
        invariant forall i, k | i in made && k in made && i != k :: made[i] != made[k]
      {
        assert order[i] in order;
        assert order[..i + 1] == order[..i] + [order[i]];
        if order[i] in broken {
          failed := true;
        } else {
          var chain := new S.Service<C>(table[order[i]].cfg);
          made := made[order[i] := chain];
        }
      }
      assert order[..|order|] == order;
    }

    /** NewChainSetImmut: the chains and the rows are given. */
    constructor Immutable(table: map<string, Row<C>>, chains: map<string, S.Service<C>>)
      requires forall i, k | i in chains && k in chains && i != k :: chains[i] != chains[k]
      ensures Valid() && state == O.Unstarted && immutable && this.table == table && this.chains == chains
    {
      this.table, this.chains, immutable, state := table, chains, true, O.Unstarted;
    }

    /** The one call on a service that a method may make is the next one of the journal. */
    ghost function Fate(db: bool, makes: bool, j: S.Journal<C>): Outside
      reads j
    {
      Outside(db, makes, j.fates(|j.events|))
    }

    /** The new state of the set, and the reply. */
    ghost predicate Results(expected: (State<C>, Reply), r: Reply)
      reads this, chains.Values
    {
      table == expected.0.table && Live() == expected.0.live && r == expected.1
    }

    /** The chains in memory, and the reply. */
    ghost predicate Leaves(expected: (map<string, C>, Reply), r: Reply)
      reads this`chains, chains.Values
    {
      Live() == expected.0 && r == expected.1
    }

    method InitializeChain(id: string, cfg: C, makes: bool, j: S.Journal<C>) returns (r: Reply)
      requires Valid()
      modifies this`chains, j
      ensures Valid() && Leaves(Initialized(old(Live()), id, cfg, old(Fate(true, makes, j))), r)
      ensures r == Nil ==> id in chains && fresh(chains[id]) && chains == old(chains)[id := chains[id]]
      ensures r == Nil ==> j.events == old(j.events) + [S.Started(chains[id], true)]
      ensures r != Nil ==> chains == old(chains)
      ensures r != Nil ==> j.events == old(j.events) ||
                           (makes && exists s :: fresh(s) && j.events == old(j.events) + [S.Started(s, false)])
    {
      if !makes {
        return InitFailed;
      }
      var chain := new S.Service<C>(cfg);
      var ok := chain.Start(j);
      if !ok {
        return InitFailed;
      }
      chains := chains[id := chain];
      r := Nil;
    }

    method Chain(id: string, db: bool, makes: bool, j: S.Journal<C>) returns (r: Reply, s: Option<S.Service<C>>)
      requires Valid()
      modifies this`chains, j
      ensures Valid()
      ensures Results(Step(immutable, old(View()), Call.Chain(id, state == O.Started), old(Fate(db, makes, j))), r)
      ensures r == Nil <==> s.Some?
      ensures s.Some? ==> id in chains && s.value == chains[id]
      ensures id in old(chains) ==> chains == old(chains) && j.events == old(j.events)
    {
      if id == "" {
        return EmptyId, None;
      }
      if state != O.Started {
        return NotReady, None;
      }
      if id in chains {
        return Nil, Some(chains[id]);
      }
      if !db {
        return DatabaseError, None;
      }
      if id !in table {
        return InvalidId, None;
      }
      r := InitializeChain(id, table[id].cfg, makes, j);
      s := if r == Nil then Some(chains[id]) else None;
    }

    method Add(id: string, cfg: C, db: bool, makes: bool, j: S.Journal<C>) returns (r: Reply)
      requires Valid()
      modifies this`table, this`chains, j
      ensures Valid() && Results(Step(immutable, old(View()), Call.Add(id, cfg), old(Fate(db, makes, j))), r)
      ensures r == Nil ==> id in chains && j.events == old(j.events) + [S.Started(chains[id], true)]
    {
      if immutable {
        return Unsupported;
      }
      if id in chains {
        return Exists;
      }
      if !db || id in table {
        return DatabaseError;
      }
      table := table[id := Row(cfg, true)];
      r := InitializeChain(id, cfg, makes, j);
    }

    method Configure(id: string, enabled: bool, cfg: C, db: bool, makes: bool, j: S.Journal<C>) returns (r: Reply)
      requires Valid()
      modifies this`table, this`chains, chains.Values, j
      ensures Valid()
      ensures Results(Step(immutable, old(View()), Call.Configure(id, enabled, cfg), old(Fate(db, makes, j))), r)
      ensures id in old(chains) && id !in chains ==>
                j.events == old(j.events) + [S.Closed(old(chains)[id], r == Nil)]
      ensures id in old(chains) && id in chains ==> chains == old(chains) && j.events == old(j.events)
    {
      if immutable {
        return Unsupported;
      }
      if !db || id !in table {
        return DatabaseError;
      }
      table := table[id := Row(cfg, enabled)];
      r := Toggle(id, enabled, cfg, makes, j);
    }

    method Toggle(id: string, enabled: bool, cfg: C, makes: bool, j: S.Journal<C>) returns (r: Reply)
      requires Valid()
      modifies this`chains, chains.Values, j
      ensures Valid() && Leaves(Toggled(old(Live()), id, enabled, cfg, old(Fate(true, makes, j))), r)
      ensures id in old(chains) && id !in chains ==> j.events == old(j.events) + [S.Closed(old(chains)[id], r == Nil)]
      ensures id in old(chains) && id in chains ==> chains == old(chains) && j.events == old(j.events)
    {
      if id in chains && !enabled {
        var chain := chains[id];
        chains := chains - {id};
        var ok := chain.Close(j);
        r := if ok then Nil else CloseFailed;
      } else if id !in chains && enabled {
        r := InitializeChain(id, cfg, makes, j);
      } else {
        if id in chains {
          chains[id].UpdateConfig(cfg);
        }
        r := Nil;
      }
    }

    method Remove(id: string, db: bool, j: S.Journal<C>) returns (r: Reply)
      requires Valid()
      modifies this`table, this`chains, j
      ensures Valid() && Results(Step(immutable, old(View()), Call.Remove(id), old(Fate(db, true, j))), r)
      ensures j.events == if id in old(chains) && id !in chains
                          then old(j.events) + [S.Closed(old(chains)[id], r == Nil)] else old(j.events)
    {
      if immutable {
        return Unsupported;
      }
      if !db || id !in table {
        return DatabaseError;
      }
      table := table - {id};
      if id !in chains {
        return Nil;
      }
      var chain := chains[id];
      chains := chains - {id};
      var ok := chain.Close(j);
      r := if ok then Nil else CloseFailed;
    }

    /** Start under its guard. `order` is the order in which the map is ranged over. A mutable set calls the Start of
        each chain and is Started whatever they return. An immutable set is Started if all of them start; at the first
        one that does not, it closes again, in reverse order, those it started. */
    method Start(order: seq<string>, j: S.Journal<C>) returns (ok: bool, ghost k: nat)
      requires Valid() && Lists(order, chains.Keys)
      modifies this`state, j
      ensures Among(order, chains.Keys)
      ensures old(state) != O.Unstarted ==> !ok && state == old(state) && j.events == old(j.events)
      ensures old(state) == O.Unstarted ==> state == if ok then O.Started else O.StartFailed
      ensures old(state) == O.Unstarted && immutable ==>
                S.AllOrNothing(Named(chains, order), [], j.fates, old(j.events), j.events, ok, k)
      ensures old(state) == O.Unstarted && !immutable ==>
                ok && j.events == old(j.events) + S.Starts(Named(chains, order), j.fates, |old(j.events)|)
    {
      k := 0;
      if state != O.Unstarted {
        return false, 0;
      }
      state := O.Starting;
      if immutable {
        ok, k := StartAll(order, j);
      } else {
        StartEach(order, j);
        ok := true;
      }
      state := if ok then O.Started else O.StartFailed;
    }

    method StartAll(order: seq<string>, j: S.Journal<C>) returns (ok: bool, ghost k: nat)
      requires Valid() && Lists(order, chains.Keys)
      modifies j
      ensures Among(order, chains.Keys)
      ensures S.AllOrNothing(Named(chains, order), [], j.fates, old(j.events), j.events, ok, k)
    {
      var ms := new S.MultiStart<C>();
      ghost var was, ss := j.events, Named(chains, order);
      k := 0;
      for i := 0 to |order|
        invariant k == i && ms.started == [] + ss[..i] && fresh(ms)
        invariant S.SoFar(ss, j.fates, was, j.events, i)
      {
        ghost var now := j.events;
        ok := StartNext(ms, chains[order[i]], j);
        if !ok {
          S.StopsThere(ss, [], j.fates, was, now, j.events, i);
          return false, i;
        }
        S.OneMoreStarted(ss, j.fates, was, now, i);
        assert ss[..i + 1] == ss[..i] + [ss[i]];
        k := i + 1;
      }
      ok := true;
      S.AllStarted(ss, [], j.fates, was, j.events);
    }

    method StartNext(ms: S.MultiStart<C>, chain: S.Service<C>, j: S.Journal<C>) returns (ok: bool)
      modifies ms, j
      ensures ok == j.fates(|old(j.events)|)
      ensures ok ==> ms.started == old(ms.started) + [chain] && j.events == old(j.events) + [S.Started(chain, true)]
      ensures !ok ==> ms.started == old(ms.started)
      ensures !ok ==> j.events == old(j.events) + [S.Started(chain, false)]
                                  + S.Closes(ms.started, j.fates, |old(j.events)| + 1)
    {
      ghost var k;
      ok, k := ms.Start([chain], j);
      StartedAlone(chain, old(ms.started), j.fates, old(j.events), j.events, ok, k);
    }

    /** A mutable set starts what it can. */
    method StartEach(order: seq<string>, j: S.Journal<C>)
      requires Valid() && Lists(order, chains.Keys)
      modifies j
      ensures Among(order, chains.Keys)
      ensures j.events == old(j.events) + S.Starts(Named(chains, order), j.fates, |old(j.events)|)
    {
      ghost var was, n := j.events, |j.events|;
      for i := 0 to |order|
        invariant j.events == was + S.Starts(Named(chains, order[..i]), j.fates, n)
      {
        NamedAppend(chains, order, i);
        S.StartsAppend(Named(chains, order[..i]), chains[order[i]], j.fates, n);
        var _ := chains[order[i]].Start(j);
      }
      assert order[..|order|] == order;
    }

    /** Close under its guard: from Started, every chain in memory is closed once, and it is reported whether one of
        them failed; from any other state, none is. */
    method Close(order: seq<string>, j: S.Journal<C>) returns (ok: bool)
      requires Valid() && Lists(order, chains.Keys)
      modifies this`state, j
      ensures Among(order, chains.Keys)
      ensures old(state) != O.Started ==> !ok && state == old(state) && j.events == old(j.events)
      ensures old(state) == O.Started ==> state == if ok then O.Stopped else O.StopFailed
      ensures old(state) == O.Started ==>
                && j.events == old(j.events) + Closings(Named(chains, order), j.fates, |old(j.events)|)
                && ok == S.AllGood(j.fates, |old(j.events)|, |order|)
    {
      if state != O.Started {
        return false;
      }
      state := O.Stopping;
      ok := true;
      ghost var was, n := j.events, |j.events|;
      for i := 0 to |order|
        invariant j.events == was + Closings(Named(chains, order[..i]), j.fates, n)
        invariant ok == S.AllGood(j.fates, n, i)
      {
        NamedAppend(chains, order, i);
        ClosingsAppend(Named(chains, order[..i]), chains[order[i]], j.fates, n);
        var closed := chains[order[i]].Close(j);
        ok := ok && closed;
      }
      assert order[..|order|] == order;
      state := if ok then O.Stopped else O.StopFailed;
    }
  }
}
