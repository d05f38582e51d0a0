/** The bridge ORM of core/bridges/orm.go and its cache, one call at a time; a query that is not answered changes
    nothing. */
module Bridges {
  import opened Wrappers

  datatype BridgeType = BridgeType(name: string, url: string, confirmations: nat, payment: Option<int>, secrets: string)

  datatype Request = Request(url: string, confirmations: nat, payment: Option<int>)

  datatype Error = Database | NoRows | Duplicate | NoNames | NotAllExist

  type Rows = map<string, BridgeType>

  datatype State = State(table: Rows, cache: Rows)

  datatype Call =
    | Find(name: string)
    | FindMany(names: seq<string>)
    | Create(row: BridgeType)
    | Update(name: string, request: Request)
    | Delete(name: string)

  type Outcome = Result<seq<BridgeType>, Error>

  // ----- What each call does; `db` says whether the database answers it -----

  function FindStep(s: State, name: string, db: bool): (State, Outcome) {
    if name in s.cache then (s, Ok([s.cache[name]]))
    else if !db then (s, Err(Database))
    else if name !in s.table then (s, Err(NoRows))
    else (s.(cache := s.cache[s.table[name].name := s.table[name]]), Ok([s.table[name]]))
  }

  function Cached(names: seq<string>, cache: Rows): seq<BridgeType> {
    if names == [] then [] else
    var front, last := names[..|names| - 1], names[|names| - 1];
    if last in cache then Cached(front, cache) + [cache[last]] else Cached(front, cache)
  }

  function Uncached(names: seq<string>, cache: Rows): seq<string> {
    if names == [] then [] else
    var front, last := names[..|names| - 1], names[|names| - 1];
    if last in cache then Uncached(front, cache) else Uncached(front, cache) + [last]
  }

  /** The rows whose name is among the searched ones, once each, in any order. */
  ghost predicate Selects(table: Rows, names: seq<string>, rows: seq<BridgeType>) {
    && (forall i | 0 <= i < |rows| :: rows[i].name in names && rows[i].name in table && rows[i] == table[rows[i].name])
    && (forall n | n in names && n in table :: table[n] in rows)
    && Distinct(rows)
  }

  function Stored(cache: Rows, rows: seq<BridgeType>): Rows {
    if rows == [] then cache else
    var last := rows[|rows| - 1];
    Stored(cache, rows[..|rows| - 1])[last.name := last]
  }

  /** The query brings its rows in any order. */
  ghost predicate FindManyStep(s: State, names: seq<string>, db: bool, s': State, r: Outcome) {
    if names == [] then r == Err(NoNames) && s' == s
    else if |Cached(names, s.cache)| == |names| then r == Ok(Cached(names, s.cache)) && s' == s
    else if !db then r == Err(Database) && s' == s
    else exists rows :: Queried(s, names, rows, s', r)
  }

  ghost predicate Queried(s: State, names: seq<string>, rows: seq<BridgeType>, s': State, r: Outcome) {
    && Selects(s.table, Uncached(names, s.cache), rows)
    && s' == s.(cache := Stored(s.cache, rows))
    && r == var all := Cached(names, s.cache) + rows; if |all| == |names| then Ok(all) else Err(NotAllExist)
  }

  function CreateStep(s: State, row: BridgeType, db: bool): (State, Outcome) {
    if !db then (s, Err(Database))
    else if row.name in s.table then (s, Err(Duplicate))
    else (State(s.table[row.name := row], s.cache[row.name := row]), Ok([row]))
  }

  function Updated(row: BridgeType, request: Request): BridgeType {
    row.(url := request.url, confirmations := request.confirmations, payment := request.payment)
  }

  function UpdateStep(s: State, name: string, request: Request, db: bool): (State, Outcome) {
    if !db then (s, Err(Database))
    else if name !in s.table then (s, Err(NoRows))
    else
      var row := Updated(s.table[name], request);
      (State(s.table[name := row], s.cache[row.name := row]), Ok([row]))
  }

  /** The cached entry goes even when there was no row. */
  function DeleteStep(s: State, name: string, db: bool): (State, Outcome) {
    if !db then (s, Err(Database))
    else (State(s.table - {name}, s.cache - {name}), if name in s.table then Ok([]) else Err(NoRows))
  }

  ghost predicate Step(s: State, call: Call, db: bool, s': State, r: Outcome) {
    match call
    case Find(name) => (s', r) == FindStep(s, name, db)
    case FindMany(names) => FindManyStep(s, names, db, s', r)
    case Create(row) => (s', r) == CreateStep(s, row, db)
    case Update(name, request) => (s', r) == UpdateStep(s, name, request, db)
    case Delete(name) => (s', r) == DeleteStep(s, name, db)
  }

  // ----- The cache is coherent -----

  predicate Coherent(s: State) {
    && (forall n | n in s.table :: s.table[n].name == n)
    && (forall n | n in s.cache :: n in s.table && s.cache[n] == s.table[n])
  }

  lemma {:induction false} StoredCoherent(s: State, rows: seq<BridgeType>)
    requires Coherent(s)
    requires forall i | 0 <= i < |rows| :: rows[i].name in s.table && rows[i] == s.table[rows[i].name]
    ensures Coherent(s.(cache := Stored(s.cache, rows)))
  {
    if rows == [] {
    } else {
      StoredCoherent(s, rows[..|rows| - 1]);
    }
  }

  lemma StepCoherent(s: State, call: Call, db: bool, s': State, r: Outcome)
    requires Coherent(s) && Step(s, call, db, s', r)
    ensures Coherent(s')
  {
    if call.FindMany? && s' != s {
      var rows :| Queried(s, call.names, rows, s', r);
      StoredCoherent(s, rows);
    }
  }

  datatype Event = Event(call: Call, db: bool, outcome: Outcome, after: State)

  function After(table: Rows, es: seq<Event>): State {
    if es == [] then State(table, map[]) else es[|es| - 1].after
  }

  /** The ORM starts with an empty cache, over any table whose rows are filed under their names. */
  ghost predicate IsRun(table: Rows, es: seq<Event>) {
    if es == [] then forall n | n in table :: table[n].name == n else
    var before, e := es[..|es| - 1], es[|es| - 1];
    IsRun(table, before) && Step(After(table, before), e.call, e.db, e.after, e.outcome)
  }

  /** After any run each cached entry equals its row. */
  lemma {:induction false} RunCoherent(table: Rows, es: seq<Event>)
    requires IsRun(table, es)
    ensures Coherent(After(table, es))
  {
    if es == [] {
    } else {
      var before, e := es[..|es| - 1], es[|es| - 1];
      RunCoherent(table, before);
      StepCoherent(After(table, before), e.call, e.db, e.after, e.outcome);
    }
  }

  // ----- Several names at once -----

  predicate Distinct<T(==)>(s: seq<T>) {
    forall i, j | 0 <= i < j < |s| :: s[i] != s[j]
  }

  predicate AllExist(names: seq<string>, table: Rows) {
    forall i | 0 <= i < |names| :: names[i] in table
  }

  function RowsOf(names: seq<string>, table: Rows): seq<BridgeType>
    requires AllExist(names, table)
  {
    seq(|names|, i requires 0 <= i < |names| => table[names[i]])
  }

  ghost function Elements<T>(s: seq<T>): set<T> {
    set x | x in s
  }

  /** A list has at most as many different elements as its length, and that many exactly if nothing repeats. */
  lemma {:induction false} ElementCount<T>(s: seq<T>)
    ensures |Elements(s)| <= |s|
    ensures |Elements(s)| == |s| <==> Distinct(s)
  {
    if s == [] {
    } else {
      var front, last := s[..|s| - 1], s[|s| - 1];
      ElementCount(front);
      assert s == front + [last];
      assert Elements(s) == Elements(front) + {last};
      if last in front {
        assert Elements(s) == Elements(front);
        var i :| 0 <= i < |front| && front[i] == last;
        assert s[i] == s[|s| - 1];
      } else {
        assert Distinct(front) <==> Distinct(s) by {
          assert forall i | 0 <= i < |front| :: s[i] == front[i] && front[i] in front;
        }
      }
    }
  }

  lemma SmallerSet<T>(a: set<T>, b: set<T>)
    requires a <= b
    ensures |a| <= |b| && (|a| == |b| ==> a == b)
  {
    assert b == a + (b - a);
    assert a !! (b - a);
  }

  /** Two lists without repetition and with the same elements are permutations of each other. */
  lemma {:induction false} SameElements<T>(s: seq<T>, t: seq<T>)
    requires Distinct(s) && Distinct(t) && Elements(s) == Elements(t)
    ensures multiset(s) == multiset(t)
  {
    DistinctCounts(s);
    DistinctCounts(t);
    assert forall x :: x in s <==> x in Elements(s);
    assert forall x :: x in t <==> x in Elements(t);
  }

  lemma {:induction false} DistinctCounts<T>(s: seq<T>)
    requires Distinct(s)
    ensures forall x :: multiset(s)[x] == if x in s then 1 else 0
  {
    if s == [] {
    } else {
      var front, last := s[..|s| - 1], s[|s| - 1];
      assert s == front + [last];
      DistinctCounts(front);
    }
  }

  function NamesOf(rows: seq<BridgeType>): seq<string> {
    seq(|rows|, i requires 0 <= i < |rows| => rows[i].name)
  }

  /** What the query brings: as many rows as names exactly if all names exist and none repeats. */
  lemma SelectedCount(table: Rows, names: seq<string>, rows: seq<BridgeType>)
    requires (forall n | n in table :: table[n].name == n) && Selects(table, names, rows)
    ensures |rows| <= |names|
    ensures |rows| == |names| <==> AllExist(names, table) && Distinct(names)
  {
    var found := NamesOf(rows);
    assert Distinct(found);
    ElementCount(found);
    ElementCount(names);
    FoundNames(table, names, rows);
    SmallerSet(Elements(found), Elements(names));
    if AllExist(names, table) {
      assert Elements(found) == Elements(names);
    }
    if Elements(found) == Elements(names) {
      forall i | 0 <= i < |names|
        ensures names[i] in table
      {
        assert names[i] in Elements(found);
      }
    }
  }

  lemma FoundNames(table: Rows, names: seq<string>, rows: seq<BridgeType>)
    requires (forall n | n in table :: table[n].name == n) && Selects(table, names, rows)
    ensures forall n :: n in NamesOf(rows) <==> n in names && n in table
  {
    forall n | n in names && n in table
      ensures n in NamesOf(rows)
    {
      var i :| 0 <= i < |rows| && rows[i] == table[n];
      assert NamesOf(rows)[i] == n;
    }
  }

  lemma SelectedRows(table: Rows, names: seq<string>, rows: seq<BridgeType>)
    requires (forall n | n in table :: table[n].name == n) && Selects(table, names, rows)
    requires AllExist(names, table) && Distinct(names)
    ensures multiset(rows) == multiset(RowsOf(names, table))
  {
    var wanted := RowsOf(names, table);
    assert forall i | 0 <= i < |names| :: wanted[i].name == names[i] && names[i] in names;
    forall x
      ensures x in rows <==> x in wanted
    {
      if x in wanted {
        var i :| 0 <= i < |wanted| && wanted[i] == x;
        assert table[names[i]] in rows;
      }
      if x in rows {
        var i :| 0 <= i < |rows| && rows[i] == x;
        var k :| 0 <= k < |names| && names[k] == x.name;
        assert wanted[k] == x;
      }
    }
    assert Elements(rows) == Elements(wanted);
    SameElements(rows, wanted);
  }

  lemma AllExistAppend(names: seq<string>, name: string, table: Rows)
    ensures AllExist(names + [name], table) <==> AllExist(names, table) && name in table
    ensures AllExist(names + [name], table) ==> RowsOf(names + [name], table) == RowsOf(names, table) + [table[name]]
  {
    var all := names + [name];
    assert forall i | 0 <= i < |names| :: all[i] == names[i];
    assert all[|names|] == name;
  }

  /** Cached and searched names make up the whole request. */
  lemma {:induction false} PartedNames(s: State, names: seq<string>)
    requires Coherent(s)
    ensures |Cached(names, s.cache)| + |Uncached(names, s.cache)| == |names|
    ensures AllExist(names, s.table) <==> AllExist(Uncached(names, s.cache), s.table)
  {
    if names == [] {
    } else {
      var front, last := names[..|names| - 1], names[|names| - 1];
      PartedNames(s, front);
      assert names == front + [last];
      AllExistAppend(front, last, s.table);
      AllExistAppend(Uncached(front, s.cache), last, s.table);
    }
  }

  lemma OneMoreRow(s: State, cached: seq<BridgeType>, uncached: seq<string>, rows: seq<BridgeType>, name: string)
    requires AllExist(uncached, s.table) && name in s.table
    requires multiset(cached) + multiset(RowsOf(uncached, s.table)) == multiset(rows)
    ensures multiset(cached + [s.table[name]]) + multiset(RowsOf(uncached, s.table)) == multiset(rows + [s.table[name]])
    ensures AllExist(uncached + [name], s.table)
    ensures multiset(cached) + multiset(RowsOf(uncached + [name], s.table)) == multiset(rows + [s.table[name]])
  {
    AllExistAppend(uncached, name, s.table);
  }

  lemma {:induction false} PartedRows(s: State, names: seq<string>)
    requires Coherent(s) && AllExist(names, s.table) && AllExist(Uncached(names, s.cache), s.table)
    ensures multiset(Cached(names, s.cache)) + multiset(RowsOf(Uncached(names, s.cache), s.table))
         == multiset(RowsOf(names, s.table))
  {
    if names == [] {
    } else {
      var front, last := names[..|names| - 1], names[|names| - 1];
      assert names == front + [last];
      AllExistAppend(front, last, s.table);
      PartedNames(s, front);
      PartedRows(s, front);
      OneMoreRow(s, Cached(front, s.cache), Uncached(front, s.cache), RowsOf(front, s.table), last);
    }
  }

  lemma {:induction false} UncachedDistinct(names: seq<string>, cache: Rows)
    requires Distinct(names)
    ensures Distinct(Uncached(names, cache)) && forall n | n in Uncached(names, cache) :: n in names && n !in cache
  {
    if names == [] {
    } else {
      var front, last := names[..|names| - 1], names[|names| - 1];
      assert names == front + [last];
      UncachedDistinct(front, cache);
      assert forall i | 0 <= i < |front| :: front[i] == names[i];
    }
  }

  /** When the database answers, FindBridges succeeds exactly if at least one name is given, every name has a row and
      the names that are not cached do not repeat; and then it returns those rows, one for each name given, in some
      order. */
  lemma FindManyIff(s: State, names: seq<string>, s': State, r: Outcome)
    requires Coherent(s) && FindManyStep(s, names, true, s', r)
    ensures r.Ok? <==> names != [] && AllExist(names, s.table) && Distinct(Uncached(names, s.cache))
    ensures r.Ok? ==> multiset(r.value) == multiset(RowsOf(names, s.table))
  {
    if names != [] {
      PartedNames(s, names);
      if AllExist(names, s.table) {
        PartedRows(s, names);
      }
      if |Cached(names, s.cache)| < |names| {
        var rows :| Queried(s, names, rows, s', r);
        SelectedCount(s.table, Uncached(names, s.cache), rows);
        if r.Ok? {
          SelectedRows(s.table, Uncached(names, s.cache), rows);
        }
      } else {
        assert Uncached(names, s.cache) == [];
        assert RowsOf(Uncached(names, s.cache), s.table) == [];
      }
    }
  }

  /** How a call fails; names that are all cached need no database. */
  lemma FindManyFails(s: State, names: seq<string>, db: bool, s': State, r: Outcome)
    requires FindManyStep(s, names, db, s', r)
    ensures r.Err? ==> r.error == if names == [] then NoNames else if !db then Database else NotAllExist
    ensures !db && names != [] ==> s' == s && (r.Ok? <==> |Cached(names, s.cache)| == |names|)
  {
  }

  lemma {:induction false} StoredNames(cache: Rows, rows: seq<BridgeType>, n: string)
    ensures n in Stored(cache, rows) <==> n in cache || n in NamesOf(rows)
  {
    if rows == [] {
    } else {
      var front, last := rows[..|rows| - 1], rows[|rows| - 1];
      StoredNames(cache, front, n);
      assert NamesOf(rows) == NamesOf(front) + [last.name];
    }
  }

  lemma {:induction false} AskedFor(names: seq<string>, cache: Rows, n: string)
    ensures n in names <==> (n in names && n in cache) || n in Uncached(names, cache)
    ensures n in Uncached(names, cache) ==> n !in cache
    ensures |Cached(names, cache)| == |names| <==> Uncached(names, cache) == []
  {
    if names == [] {
    } else {
      var front, last := names[..|names| - 1], names[|names| - 1];
      assert names == front + [last];
      AskedFor(front, cache, n);
      CachedAtMost(front, cache);
    }
  }

  lemma {:induction false} CachedAtMost(names: seq<string>, cache: Rows)
    ensures |Cached(names, cache)| <= |names|
  {
    if names == [] {
    } else {
      CachedAtMost(names[..|names| - 1], cache);
    }
  }

  /** After a call that the database answers, exactly those of its names that have rows are cached, also when it fails
      because another one has none; no other name is touched. */
  lemma FoundAreCached(s: State, names: seq<string>, s': State, r: Outcome, n: string)
    requires Coherent(s) && FindManyStep(s, names, true, s', r)
    ensures s'.table == s.table && Coherent(s')
    ensures n in s'.cache <==> n in s.cache || (n in names && n in s.table)
  {
    AskedFor(names, s.cache, n);
    if names != [] && |Cached(names, s.cache)| != |names| {
      var rows :| Queried(s, names, rows, s', r);
      StoredCoherent(s, rows);
      StoredNames(s.cache, rows, n);
      FoundNames(s.table, Uncached(names, s.cache), rows);
    }
  }

  lemma OneName(name: string, cache: Rows)
    ensures Cached([name], cache) == if name in cache then [cache[name]] else []
    ensures Uncached([name], cache) == if name in cache then [] else [name]
  {
    assert [name][..0] == [];
  }

  lemma TwoNames(name: string, cache: Rows)
    ensures Cached([name, name], cache) == if name in cache then [cache[name], cache[name]] else []
    ensures Uncached([name, name], cache) == if name in cache then [] else [name, name]
  {
    assert [name, name][..1] == [name];
    OneName(name, cache);
  }

  /** A call with one name given twice fails when the name is not cached. */
  lemma RepeatedName(row: BridgeType, s': State, r: Outcome)
    requires FindManyStep(State(map[row.name := row], map[]), [row.name, row.name], true, s', r)
    ensures r == Err(NotAllExist)
  {
    var s, names := State(map[row.name := row], map[]), [row.name, row.name];
    TwoNames(row.name, s.cache);
    assert names[0] == names[1];
    FindManyIff(s, names, s', r);
    FindManyFails(s, names, true, s', r);
  }

  /** The same call succeeds when the name is cached. */
  lemma RepeatedCachedName(row: BridgeType, db: bool, s': State, r: Outcome)
    requires FindManyStep(State(map[row.name := row], map[row.name := row]), [row.name, row.name], db, s', r)
    ensures r == Ok([row, row])
  {
    TwoNames(row.name, map[row.name := row]);
  }

  /** The failing call exists, and leaves the name cached. */
  lemma RepeatedNameFails(row: BridgeType)
    ensures var s := State(map[row.name := row], map[]);
      FindManyStep(s, [row.name, row.name], true, s.(cache := map[row.name := row]), Err(NotAllExist))
  {
    var s, names := State(map[row.name := row], map[]), [row.name, row.name];
    TwoNames(row.name, s.cache);
    assert [row][..0] == [];
    assert Queried(s, names, [row], s.(cache := map[row.name := row]), Err(NotAllExist));
  }

  // ----- The cache is transparent -----

  /** After any run, a FindBridge that the database answers gives the row, or says that there is none; one that it does
      not answer succeeds exactly if the row is cached, and after a success it is. */
  lemma FindIsLookup(table: Rows, es: seq<Event>, name: string, db: bool)
    requires IsRun(table, es)
    ensures var s := After(table, es);
      FindStep(s, name, db).1 == if db || name in s.cache then Lookup(s.table, name) else Err(Database)
    ensures var (s', r) := FindStep(After(table, es), name, db);
      && s'.table == After(table, es).table
      && (r.Ok? ==> FindStep(s', name, false) == (s', r)) && (r.Err? ==> name !in s'.cache)
  {
    RunCoherent(table, es);
  }

  function Lookup(rows: Rows, name: string): Outcome {
    if name in rows then Ok([rows[name]]) else Err(NoRows)
  }

  /** After any run, FindBridges on distinct names, when the database answers, succeeds exactly if all rows exist, and
      returns exactly those rows. */
  lemma FindManyIsLookup(table: Rows, es: seq<Event>, names: seq<string>, s': State, r: Outcome)
    requires IsRun(table, es) && names != [] && Distinct(names)
    requires FindManyStep(After(table, es), names, true, s', r)
    ensures var rows := After(table, es).table;
      && (r.Ok? <==> AllExist(names, rows))
      && (r.Ok? ==> multiset(r.value) == multiset(RowsOf(names, rows)))
  {
    var s := After(table, es);
    RunCoherent(table, es);
    UncachedDistinct(names, s.cache);
    FindManyIff(s, names, s', r);
  }

  // ----- What a write leaves -----

  /** A bridge is created exactly if the database answers and has none of that name; from then on it is found, also
      while the database does not answer. */
  lemma CreatedIsFound(s: State, row: BridgeType, db: bool, later: bool)
    ensures var (s', r) := CreateStep(s, row, db);
      && (r == Ok([row]) <==> db && row.name !in s.table)
      && (r == Ok([row]) ==>
            && FindStep(s', row.name, later) == (s', Ok([row])) && s'.table == s.table[row.name := row]
            && s'.cache - {row.name} == s.cache - {row.name})
      && (r != Ok([row]) ==> s' == s && r == Err(if db then Duplicate else Database))
  {
  }

  /** An update gives the bridge the new URL, confirmations and payment, and keeps its name and its secrets; from then
      on it is found like that. */
  lemma UpdatedIsFound(s: State, name: string, request: Request, db: bool, later: bool)
    requires Coherent(s)
    ensures var (s', r) := UpdateStep(s, name, request, db);
      && (r.Ok? <==> db && name in s.table)
      && (r.Ok? ==>
            var was := s.table[name];
            var row := BridgeType(name, request.url, request.confirmations, request.payment, was.secrets);
            && FindStep(s', name, later) == (s', Ok([row])) && r == Ok([row])
            && s'.table == s.table[name := row] && s'.cache - {name} == s.cache - {name})
      && (r.Err? ==> s' == s && r == Err(if db then NoRows else Database))
  {
  }

  /** After a delete that the database answers there is no such bridge, neither in the table nor in the cache; all the
      others are as before. */
  lemma DeletedIsGone(s: State, name: string, db: bool, later: bool)
    ensures var (s', r) := DeleteStep(s, name, db);
      && (r.Ok? <==> db && name in s.table)
      && (db ==> name !in s'.table && FindStep(s', name, later).1 == Err(if later then NoRows else Database))
      && (r.Err? ==> r == Err(if db then NoRows else Database)) && (!db ==> s' == s)
      && s'.table - {name} == s.table - {name} && s'.cache - {name} == s.cache - {name}
  {
  }

  // ----- The ORM itself -----

  class Orm {
    /** The rows stand for the database. */
    var table: Rows
    var bridgeTypesCache: Rows

    ghost function View(): (s: State)
      reads this
    {
      State(table, bridgeTypesCache)
    }

    constructor (table: Rows)
      requires forall n | n in table :: table[n].name == n
      ensures View() == State(table, map[])
    {
      this.table, bridgeTypesCache := table, map[];
    }

    method FindBridge(name: string, db: bool) returns (r: Outcome)
      modifies this`bridgeTypesCache
      ensures (View(), r) == FindStep(old(View()), name, db)
    {
      if name in bridgeTypesCache {
        return Ok([bridgeTypesCache[name]]);
      }
      if !db {
        return Err(Database);
      }
      if name !in table {
        return Err(NoRows);
      }
      var bt := table[name];
      bridgeTypesCache := bridgeTypesCache[bt.name := bt];
      r := Ok([bt]);
    }

    method FindBridges(names: seq<string>, db: bool) returns (r: Outcome)
      requires Coherent(View())
      modifies this`bridgeTypesCache
      ensures FindManyStep(old(View()), names, db, View(), r) && Coherent(View())
    {
      if |names| == 0 {
        return Err(NoNames);
      }
      var allFoundBts, searchNames := Look(names);
      if |allFoundBts| == |names| {
        return Ok(allFoundBts);
      }
      if !db {
        return Err(Database);
      }
      var bts := SelectIn(searchNames);
      StoreAll(bts);
      StoredCoherent(old(View()), bts);
      allFoundBts := allFoundBts + bts;
      if |allFoundBts| != |names| {
        r := Err(NotAllExist);
      } else {
        r := Ok(allFoundBts);
      }
      assert Queried(old(View()), names, bts, View(), r);
    }

    method Look(names: seq<string>) returns (allFoundBts: seq<BridgeType>, searchNames: seq<string>)
      ensures allFoundBts == Cached(names, bridgeTypesCache) && searchNames == Uncached(names, bridgeTypesCache)
    {
      allFoundBts, searchNames := [], [];
      for i := 0 to |names|
        invariant allFoundBts == Cached(names[..i], bridgeTypesCache)
        invariant searchNames == Uncached(names[..i], bridgeTypesCache)
      {
        assert names[..i + 1][..i] == names[..i];
        if names[i] in bridgeTypesCache {
          allFoundBts := allFoundBts + [bridgeTypesCache[names[i]]];
        } else {
          searchNames := searchNames + [names[i]];
        }
      }
      assert names[..|names|] == names;
    }

    /** The query: the database hands out the selected rows in any order. */
    method SelectIn(names: seq<string>) returns (bts: seq<BridgeType>)
      requires forall n | n in table :: table[n].name == n
      ensures Selects(table, names, bts)
    {
      var left := set n | n in names && n in table;
      bts := [];
      while left != {}
        invariant left <= set n | n in names && n in table
        invariant forall i | 0 <= i < |bts| ::
                    bts[i].name in names && bts[i].name in table && bts[i] == table[bts[i].name] && bts[i].name !in left
        invariant forall n | n in names && n in table && n !in left :: table[n] in bts
        invariant Distinct(bts)
        decreases |left|
      {
        var n :| n in left;
        left := left - {n};
        bts := bts + [table[n]];
      }
    }

    method StoreAll(bts: seq<BridgeType>)
      modifies this`bridgeTypesCache
      ensures bridgeTypesCache == Stored(old(bridgeTypesCache), bts)
    {
      for i := 0 to |bts|
        invariant bridgeTypesCache == Stored(old(bridgeTypesCache), bts[..i])
      {
        bridgeTypesCache := bridgeTypesCache[bts[i].name := bts[i]];
        assert bts[..i + 1][..i] == bts[..i];
      }
      assert bts[..|bts|] == bts;
    }

    method CreateBridgeType(row: BridgeType, db: bool) returns (r: Outcome)
      modifies this
      ensures (View(), r) == CreateStep(old(View()), row, db)
    {
      if !db {
        return Err(Database);
      }
      if row.name in table {
        return Err(Duplicate);
      }
      table := table[row.name := row];
      bridgeTypesCache := bridgeTypesCache[row.name := row];
      r := Ok([row]);
    }

    method UpdateBridgeType(name: string, request: Request, db: bool) returns (r: Outcome)
      modifies this
      ensures (View(), r) == UpdateStep(old(View()), name, request, db)
    {
      if !db {
        return Err(Database);
      }
      if name !in table {
        return Err(NoRows);
      }
      var row := table[name].(url := request.url, confirmations := request.confirmations, payment := request.payment);
      table := table[name := row];
      bridgeTypesCache := bridgeTypesCache[row.name := row];
      r := Ok([row]);
    }

    method DeleteBridgeType(name: string, db: bool) returns (r: Outcome)
      modifies this
      ensures (View(), r) == DeleteStep(old(View()), name, db)
    {
      if !db {
        return Err(Database);
      }
      var affected := name in table;
      table := table - {name};
      bridgeTypesCache := bridgeTypesCache - {name};
      r := if affected then Ok([]) else Err(NoRows);
    }
  }
}
