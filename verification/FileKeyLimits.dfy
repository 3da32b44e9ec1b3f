/** What a file key can and cannot be relied on for, configuration by configuration, each with the exact condition. */
module FileKeyLimits {
  import opened Wrappers
  import opened Model
  import opened FileKeys
  import opened MultiRow

  // ---------------------------------------------------------------- keys that change

  predicate NotKeyed(db: DB, t: Triple) {
    t in db.registry ==> db.registry[t].None?
  }

  predicate KeylessStage(s: Stage) {
    s.Issuing? || s.Seeding? || s.Based? || s.Issued?
  }

  // The transaction is not about to give a key to a file that has one.
  predicate NoRekey(cfg: Config, db: DB, x: Tx) {
    && (x.keyed.Some? ==> NotKeyed(db, x.triple))
    && (cfg.exclusive && KeylessStage(x.stage) ==> NoKeyYet(db, x.triple, x.stage.backfill))
  }

  ghost predicate NoRekeying(cfg: Config, w: World) {
    && OneEach(cfg, w)
    && (forall t :: t in w.txs ==> NoRekey(cfg, w.db, w.txs[t]))
    && (forall t, u :: t in w.txs && u in w.txs && w.txs[t].keyed.Some? && w.txs[u].keyed.Some? && w.txs[t].triple == w.txs[u].triple ==> t == u)
  }

  lemma UpdateKeepsNoRekeying(cfg: Config, w: World, tx: nat, x: Option<Tx>)
    requires NoRekeying(cfg, w) && tx in w.txs
    requires x.Some? ==> NoRekey(cfg, w.db, x.value) && x.value.triple == w.txs[tx].triple
    requires x.Some? && x.value.keyed.Some? ==> w.txs[tx].keyed.Some? || RegistryFree(w, tx)
    ensures NoRekeying(cfg, Update(w, tx, x))
  {
  }

  lemma CommitKeepsNoRekeying(cfg: Config, w: World, tx: nat)
    requires NoRekeying(cfg, w) && Enabled(cfg, w, Commit(tx))
    ensures NoRekeying(cfg, Apply(cfg, w, Commit(tx)))
  {
    var x, w' := w.txs[tx], Apply(cfg, w, Commit(tx));
    forall t | t in w'.txs ensures NoRekey(cfg, w'.db, w'.txs[t]) { assert NoRekey(cfg, w.db, w.txs[t]); }
  }

  lemma RegisterKeepsNoRekeying(cfg: Config, w: World, tx: nat)
    requires NoRekeying(cfg, w) && KeyInv(w) && (cfg.exclusive || cfg.bindsByNumber) && Enabled(cfg, w, Register(tx))
    ensures NoRekeying(cfg, Apply(cfg, w, Register(tx)))
  {
    BackfillBinds(cfg);
    assert NoRekey(cfg, w.db, w.txs[tx]) && TxKeys(w.db, w.txs[tx]);
    UpdateKeepsNoRekeying(cfg, w, tx, AfterRegister(cfg, w.db, w.txs[tx]));
  }

  lemma LookupKeepsNoRekeying(cfg: Config, w: World, tx: nat)
    requires NoRekeying(cfg, w) && KeyInv(w) && Enabled(cfg, w, Lookup(tx))
    ensures NoRekeying(cfg, Apply(cfg, w, Lookup(tx)))
  {
    assert TxKeys(w.db, w.txs[tx]);
    UpdateKeepsNoRekeying(cfg, w, tx, Some(AfterLookup(w.db, w.txs[tx])));
  }

  lemma SeedOutsideKeepsNoRekeying(cfg: Config, w: World, s: nat)
    requires NoRekeying(cfg, w) && Enabled(cfg, w, SeedOutside(s))
    ensures NoRekeying(cfg, Apply(cfg, w, SeedOutside(s)))
  {
    var w' := Apply(cfg, w, SeedOutside(s));
    forall t | t in w'.txs ensures NoRekey(cfg, w'.db, w'.txs[t]) { assert NoRekey(cfg, w.db, w.txs[t]); }
  }

  lemma StepKeepsNoRekeying(cfg: Config, w: World, e: Event)
    requires KeyInv(w) && NoRekeying(cfg, w) && (cfg.exclusive || cfg.bindsByNumber) && Enabled(cfg, w, e)
    ensures NoRekeying(cfg, Apply(cfg, w, e))
  {
    match e
    case Open(tx, triple, rows) =>
    case Lookup(tx) => LookupKeepsNoRekeying(cfg, w, tx);
    case Advance(tx) =>
      assert NoRekey(cfg, w.db, w.txs[tx]);
      UpdateKeepsNoRekeying(cfg, w, tx, AfterAdvance(w.db, w.txs[tx]));
    case ReadBase(tx, base) =>
      assert NoRekey(cfg, w.db, w.txs[tx]);
      UpdateKeepsNoRekeying(cfg, w, tx, Some(w.txs[tx].(stage := Based(w.txs[tx].stage.backfill, base))));
    case SeedCounter(tx) =>
      assert NoRekey(cfg, w.db, w.txs[tx]);
      UpdateKeepsNoRekeying(cfg, w, tx, Some(AfterSeed(w.db, w.txs[tx])));
    case Register(tx) => RegisterKeepsNoRekeying(cfg, w, tx);
    case InsertRows(tx) =>
      assert NoRekey(cfg, w.db, w.txs[tx]);
      UpdateKeepsNoRekeying(cfg, w, tx, Some(AfterInsert(w.db, w.txs[tx])));
    case Commit(tx) => CommitKeepsNoRekeying(cfg, w, tx);
    case Rollback(tx) => UpdateKeepsNoRekeying(cfg, w, tx, None);
    case ProbeBase(s, base) =>
    case SeedOutside(s) => SeedOutsideKeepsNoRekeying(cfg, w, s);
  }

  lemma {:induction false} RunKeepsNoRekeying(cfg: Config, w: World, es: seq<Event>, w': World)
    requires KeyInv(w) && NoRekeying(cfg, w) && (cfg.exclusive || cfg.bindsByNumber) && Runs(cfg, w, es, w')
    ensures KeyInv(w') && NoRekeying(cfg, w')
    decreases |es|
  {
    if es != [] {
      StepKeepsKeys(cfg, w, es[0]);
      StepKeepsNoRekeying(cfg, w, es[0]);
      RunKeepsNoRekeying(cfg, Apply(cfg, w, es[0]), es[1..], w');
    }
  }

  ghost predicate KeepsKey(w: World, w': World, t: Triple) {
    t in w.db.registry && w.db.registry[t].Some? ==> t in w'.db.registry && w'.db.registry[t] == w.db.registry[t]
  }

  lemma {:induction false} KeyStays(cfg: Config, w: World, es: seq<Event>, w': World, t: Triple)
    requires KeyInv(w) && NoRekeying(cfg, w) && (cfg.exclusive || cfg.bindsByNumber) && Runs(cfg, w, es, w')
    ensures KeepsKey(w, w', t)
    decreases |es|
  {
    if es != [] {
      var v := Apply(cfg, w, es[0]);
      StepKeepsKeys(cfg, w, es[0]);
      StepKeepsNoRekeying(cfg, w, es[0]);
      if es[0].Commit? { assert NoRekey(cfg, w.db, w.txs[es[0].tx]); }
      assert KeepsKey(w, v, t);
      KeyStays(cfg, v, es[1..], w', t);
    }
  }

  /** A file's committed key never changes, where files are written by one transaction at a time or nothing can be backfilled. */
  lemma KeyNeverChanges(cfg: Config, db: DB, w: World, w': World, t: Triple)
    requires RegistrySound(db) && (cfg.exclusive || cfg.bindsByNumber)
    requires Reaches(cfg, Quiet(db), w) && Reaches(cfg, w, w')
    ensures KeepsKey(w, w', t)
  {
    var es :| Runs(cfg, Quiet(db), es, w);
    RunKeepsNoRekeying(cfg, Quiet(db), es, w);
    var fs :| Runs(cfg, w, fs, w');
    KeyStays(cfg, w, fs, w', t);
  }

  // ---------------------------------------------------------------- files that can have a key

  // A registry row without a key, in a dialect whose UPDATE does not bind.
  predicate Unfillable(cfg: Config, db: DB, t: Triple) {
    cfg.bindsByNumber && t in db.registry && db.registry[t].None?
  }

  // Nothing of the file is stored, and nobody has a key for it.
  ghost predicate Stuck(cfg: Config, w: World, t: Triple) {
    && Unfillable(cfg, w.db, t) && (forall n :: (t, n) !in w.db.legacy)
    && forall u :: u in w.txs && w.txs[u].triple == t ==> KeylessTx(w.txs[u])
  }

  predicate KeylessTx(x: Tx) {
    x.keyed.None? && (x.stage.Opened? || (KeylessStage(x.stage) && x.stage.backfill))
  }

  lemma UpdateKeepsStuck(cfg: Config, w: World, tx: nat, x: Option<Tx>, t: Triple)
    requires Stuck(cfg, w, t)
    requires x.Some? && x.value.triple == t ==> KeylessTx(x.value)
    ensures Stuck(cfg, Update(w, tx, x), t)
  {
  }

  lemma CommitKeepsStuck(cfg: Config, w: World, tx: nat, t: Triple)
    requires Stuck(cfg, w, t) && Enabled(cfg, w, Commit(tx))
    ensures Stuck(cfg, Apply(cfg, w, Commit(tx)), t)
  {
    forall n ensures (t, n) !in Apply(cfg, w, Commit(tx)).db.legacy {
      NewLegacyRowsHas(w.db.legacy, w.txs[tx].rows, w.txs[tx].triple, t, n);
    }
  }

  lemma StuckStep(cfg: Config, w: World, e: Event, t: Triple)
    requires Stuck(cfg, w, t) && Enabled(cfg, w, e)
    ensures Stuck(cfg, Apply(cfg, w, e), t)
  {
    BackfillBinds(cfg);
    match e
    case Open(tx, triple, rows) => UpdateKeepsStuck(cfg, w, tx, Some(Tx(triple, rows, Opened, None, None, map[])), t);
    case Lookup(tx) => UpdateKeepsStuck(cfg, w, tx, Some(AfterLookup(w.db, w.txs[tx])), t);
    case Advance(tx) => UpdateKeepsStuck(cfg, w, tx, AfterAdvance(w.db, w.txs[tx]), t);
    case ReadBase(tx, base) => UpdateKeepsStuck(cfg, w, tx, Some(w.txs[tx].(stage := Based(w.txs[tx].stage.backfill, base))), t);
    case SeedCounter(tx) => UpdateKeepsStuck(cfg, w, tx, Some(AfterSeed(w.db, w.txs[tx])), t);
    case Register(tx) => UpdateKeepsStuck(cfg, w, tx, AfterRegister(cfg, w.db, w.txs[tx]), t);
    case InsertRows(tx) => UpdateKeepsStuck(cfg, w, tx, Some(AfterInsert(w.db, w.txs[tx])), t);
    case Commit(tx) => CommitKeepsStuck(cfg, w, tx, t);
    case Rollback(tx) => UpdateKeepsStuck(cfg, w, tx, None, t);
    case ProbeBase(s, base) =>
    case SeedOutside(s) =>
  }

  /** A file that cannot be backfilled gets no key and no row, however often it is written and whatever else is written. */
  lemma {:induction false} StuckForever(cfg: Config, w: World, es: seq<Event>, w': World, t: Triple)
    requires Stuck(cfg, w, t) && Runs(cfg, w, es, w')
    ensures Stuck(cfg, w', t)
    decreases |es|
  {
    if es != [] {
      StuckStep(cfg, w, es[0], t);
      StuckForever(cfg, Apply(cfg, w, es[0]), es[1..], w', t);
    }
  }

  // A transaction of the file has resolved its key.
  ghost predicate Resolved(w: World, t: Triple) {
    exists u :: u in w.txs && w.txs[u].triple == t && w.txs[u].stage.Keyed?
  }

  ghost predicate CanResolve(cfg: Config, db: DB, t: Triple) {
    exists w :: Reaches(cfg, Quiet(db), w) && Resolved(w, t)
  }

  // An upper bound that is reached, or 0.
  lemma {:induction false} BaselineExists(registry: map<Triple, Option<int>>) returns (base: int)
    ensures IsBaseline(registry, base)
    decreases |registry|
  {
    if forall t :: t in registry ==> registry[t].None? {
      return 0;
    }
    var t :| t in registry && registry[t].Some?;
    var rest := registry - {t};
    assert forall u :: u in registry && u != t ==> u in rest && rest[u] == registry[u];
    base := BaselineExists(rest);
    if base <= registry[t].value || forall u :: u in rest ==> rest[u].None? {
      base := registry[t].value;
      assert registry[t] == Some(base);
    } else {
      var u :| u in rest && rest[u] == Some(base);
      assert registry[u] == Some(base);
    }
  }

  // The only transaction there is.
  function Alone(db: DB, x: Tx): World {
    World(db, map[0 := x], map[])
  }

  lemma AloneStep(cfg: Config, db: DB, x: Tx, e: Event, y: Tx)
    requires Reaches(cfg, Quiet(db), Alone(db, x)) && Enabled(cfg, Alone(db, x), e) && Apply(cfg, Alone(db, x), e) == Update(Alone(db, x), 0, Some(y))
    ensures Reaches(cfg, Quiet(db), Alone(db, y))
  {
    ReachStep(cfg, Quiet(db), Alone(db, x), e);
    assert Alone(db, x).txs[0 := y] == map[0 := y];
  }

  // The counter row is missing: it is seeded.
  lemma SeededIsReached(cfg: Config, db: DB, x: Tx, b: bool, base: int)
    requires db.counter.None? && IsBaseline(db.registry, base) && x.stage == Issuing(b, false) && x.counter.None?
    requires Reaches(cfg, Quiet(db), Alone(db, x))
    ensures Reaches(cfg, Quiet(db), Alone(db, x.(counter := Some(base), stage := Issuing(b, true))))
  {
    AloneStep(cfg, db, x, Advance(0), x.(stage := Seeding(b)));
    AloneStep(cfg, db, x.(stage := Seeding(b)), ReadBase(0, base), x.(stage := Based(b, base)));
    AloneStep(cfg, db, x.(stage := Based(b, base)), SeedCounter(0), x.(counter := Some(base), stage := Issuing(b, true)));
  }

  lemma ResolvedIsReached(cfg: Config, db: DB, t: Triple)
    requires RegistrySound(db) && !Unfillable(cfg, db, t)
    ensures CanResolve(cfg, db, t)
  {
    var x := Tx(t, [], Opened, None, None, map[]);
    ReachNothing(cfg, Quiet(db));
    ReachStep(cfg, Quiet(db), Quiet(db), Open(0, t, []));
    assert Apply(cfg, Quiet(db), Open(0, t, [])) == Alone(db, x);
    var y := AfterLookup(db, x);
    AloneStep(cfg, db, x, Lookup(0), y);
    if y.stage.Keyed? {
      AloneResolves(db, y);
    } else {
      KeyFromCounter(cfg, db, t, y);
    }
  }

  lemma KeyFromCounter(cfg: Config, db: DB, t: Triple, x: Tx)
    requires RegistrySound(db) && !Unfillable(cfg, db, t) && NotKeyed(db, t) && Reaches(cfg, Quiet(db), Alone(db, x))
    requires x == Tx(t, [], Issuing(t in db.registry, false), None, None, map[])
    ensures CanResolve(cfg, db, t)
  {
    var b := t in db.registry;
    if db.counter.Some? {
      var key := db.counter.value + 1;
      AloneStep(cfg, db, x, Advance(0), x.(counter := Some(key), stage := Issued(b, key)));
      IssuedResolves(cfg, db, t, x.(counter := Some(key), stage := Issued(b, key)), key);
    } else {
      var base := BaselineExists(db.registry);
      SeededIsReached(cfg, db, x, b, base);
      var y := x.(counter := Some(base), stage := Issuing(b, true));
      AloneStep(cfg, db, y, Advance(0), y.(counter := Some(base + 1), stage := Issued(b, base + 1)));
      IssuedResolves(cfg, db, t, y.(counter := Some(base + 1), stage := Issued(b, base + 1)), base + 1);
    }
  }

  lemma AloneResolves(db: DB, x: Tx)
    requires x.stage.Keyed?
    ensures Resolved(Alone(db, x), x.triple)
  {
    assert 0 in Alone(db, x).txs && Alone(db, x).txs[0] == x;
  }

  lemma HigherKeyIsFree(db: DB, t: Triple, key: int)
    requires KeysBelow(db.registry, key - 1)
    ensures !KeyTaken(db, t, key)
  {
    forall u | u in db.registry ensures db.registry[u] != Some(key) {
      assert db.registry[u].Some? ==> db.registry[u].value <= key - 1;
    }
  }

  lemma IssuedResolves(cfg: Config, db: DB, t: Triple, x: Tx, key: int)
    requires !Unfillable(cfg, db, t) && NotKeyed(db, t) && KeysBelow(db.registry, key - 1) && Reaches(cfg, Quiet(db), Alone(db, x))
    requires x.triple == t && x.stage == Issued(t in db.registry, key)
    ensures CanResolve(cfg, db, t)
  {
    BackfillBinds(cfg);
    HigherKeyIsFree(db, t, key);
    var y := x.(keyed := Some(key), stage := Keyed(key));
    AloneStep(cfg, db, x, Register(0), y);
    AloneResolves(db, y);
  }

  /**
   The key of a file can be resolved exactly when the dialect binds by position, or the file's registry row is absent or has a key.
   */
  lemma ResolvableIff(cfg: Config, db: DB, t: Triple)
    requires DBSound(db)
    ensures CanResolve(cfg, db, t) <==> !(cfg.bindsByNumber && t in db.registry && db.registry[t].None?)
  {
    if Unfillable(cfg, db, t) {
      forall n ensures (t, n) !in db.legacy { assert Seen(db, t, n) == Find(db.legacy, (t, n)); }
      forall w | Reaches(cfg, Quiet(db), w) ensures !Resolved(w, t) {
        var es :| Runs(cfg, Quiet(db), es, w);
        StuckForever(cfg, Quiet(db), es, w, t);
      }
    } else {
      ResolvedIsReached(cfg, db, t);
    }
  }

  /** A registry row that is older than the key column: where binds are numbered, its file is never written. */
  lemma NumberedBackfillFails(cfg: Config, t: Triple)
    requires cfg.bindsByNumber
    ensures var db := DB(Some(0), map[t := None], map[], map[]);
            DBSound(db) && !CanResolve(cfg, db, t) && forall w, n :: Reaches(cfg, Quiet(db), w) ==> (t, n) !in w.db.legacy
  {
    var db := DB(Some(0), map[t := None], map[], map[]);
    ResolvableIff(cfg, db, t);
    forall w, n | Reaches(cfg, Quiet(db), w) ensures (t, n) !in w.db.legacy {
      var es :| Runs(cfg, Quiet(db), es, w);
      StuckForever(cfg, Quiet(db), es, w, t);
    }
  }

  // ---------------------------------------------------------------- races

  // Two transactions on one file, both past their lookup before either commits; `backfill`: its registry row had no key.
  function Racing(t: Triple, backfill: bool): World {
    World(DB(Some(0), if backfill then map[t := None] else map[], map[], map[]),
          map[0 := Tx(t, [(1, [])], Issuing(backfill, false), None, None, map[]),
              1 := Tx(t, [(2, [])], Issuing(backfill, false), None, None, map[])], map[])
  }

  lemma RacingIsReached(cfg: Config, t: Triple, backfill: bool)
    requires !cfg.exclusive
    ensures DBSound(Racing(t, backfill).db) && Reaches(cfg, Quiet(Racing(t, backfill).db), Racing(t, backfill))
  {
    var w0 := Quiet(Racing(t, backfill).db);
    ReachNothing(cfg, w0);
    ReachStep(cfg, w0, w0, Open(0, t, [(1, [])]));
    var w1 := Apply(cfg, w0, Open(0, t, [(1, [])]));
    ReachStep(cfg, w0, w1, Open(1, t, [(2, [])]));
    var w2 := Apply(cfg, w1, Open(1, t, [(2, [])]));
    ReachStep(cfg, w0, w2, Lookup(0));
    var w3 := Apply(cfg, w2, Lookup(0));
    ReachStep(cfg, w0, w3, Lookup(1));
    assert Apply(cfg, w3, Lookup(1)).txs == Racing(t, backfill).txs;
  }

  function AfterFirst(t: Triple, backfill: bool): World {
    World(DB(Some(1), map[t := Some(1)], map[(1, 1) := []], map[(t, 1) := []]),
          map[1 := Tx(t, [(2, [])], Issuing(backfill, false), None, None, map[])], map[])
  }

  function AfterSecond(t: Triple, backfill: bool): World {
    Quiet(DB(Some(2), map[t := Some(if backfill then 2 else 1)], map[(1, 1) := [], (2, 2) := []], map[(t, 1) := [], (t, 2) := []]))
  }

  // A transaction that runs on its own from the counter to its commit takes the next key, and registers it if it can.
  predicate CanFinish(cfg: Config, w: World, tx: nat) {
    && tx in w.txs && w.txs[tx].stage.Issuing? && w.db.counter.Some? && CounterFree(w, tx) && RegistryFree(w, tx)
    && w.txs[tx].counter.None? && w.txs[tx].keyed.None? && !KeyTaken(w.db, w.txs[tx].triple, w.db.counter.value + 1)
    && (cfg.readsBack ==> w.txs[tx].stage.backfill || w.txs[tx].triple !in w.db.registry)
    && (w.txs[tx].stage.backfill ==> !cfg.bindsByNumber)
    && forall t :: t in w.txs && t != tx ==> w.txs[t].data == map[]
  }

  function Finished(w: World, x: Tx, key: int): DB
    requires x.stage.Issuing?
  {
    DB(Some(key), if !x.stage.backfill && x.triple in w.db.registry then w.db.registry else w.db.registry[x.triple := Some(key)],
       w.db.data + NewRows(w.db.data, x.rows, key), w.db.legacy + NewLegacyRows(w.db.legacy, x.rows, x.triple))
  }

  function Registered(w: World, x: Tx, key: int): Tx
    requires x.stage.Issuing?
  {
    x.(counter := Some(key), stage := Keyed(key), keyed := if !x.stage.backfill && x.triple in w.db.registry then None else Some(key))
  }

  lemma RegisteredIsReached(cfg: Config, w0: World, w: World, tx: nat)
    requires Reaches(cfg, w0, w) && CanFinish(cfg, w, tx)
    ensures Reaches(cfg, w0, w.(txs := w.txs[tx := Registered(w, w.txs[tx], w.db.counter.value + 1)]))
  {
    var x, key := w.txs[tx], w.db.counter.value + 1;
    var x1 := x.(counter := Some(key), stage := Issued(x.stage.backfill, key));
    ReachStep(cfg, w0, w, Advance(tx));
    var w1 := w.(txs := w.txs[tx := x1]);
    assert Apply(cfg, w, Advance(tx)) == w1;
    ReachStep(cfg, w0, w1, Register(tx));
    assert AfterRegister(cfg, w1.db, x1) == Some(Registered(w, x, key));
    assert w1.txs[tx := Registered(w, x, key)] == w.txs[tx := Registered(w, x, key)];
  }

  lemma FinishIsReached(cfg: Config, w0: World, w: World, tx: nat)
    requires Reaches(cfg, w0, w) && CanFinish(cfg, w, tx)
    ensures Reaches(cfg, w0, World(Finished(w, w.txs[tx], w.db.counter.value + 1), w.txs - {tx}, w.seeders))
  {
    RegisteredIsReached(cfg, w0, w, tx);
    CommittedIsReached(cfg, w0, w, tx, Registered(w, w.txs[tx], w.db.counter.value + 1), w.db.counter.value + 1);
  }

  lemma CommittedIsReached(cfg: Config, w0: World, w: World, tx: nat, x: Tx, key: int)
    requires Reaches(cfg, w0, w.(txs := w.txs[tx := x])) && tx in w.txs && x.stage == Keyed(key)
    requires forall t :: t in w.txs && t != tx ==> w.txs[t].data == map[]
    ensures Reaches(cfg, w0, World(Committed(w.db, x.(data := NewRows(w.db.data, x.rows, key))), w.txs - {tx}, w.seeders))
  {
    var w2 := w.(txs := w.txs[tx := x]);
    var x3 := x.(data := NewRows(w.db.data, x.rows, key), stage := Written(key));
    ReachStep(cfg, w0, w2, InsertRows(tx));
    var w3 := w2.(txs := w2.txs[tx := x3]);
    assert Apply(cfg, w2, InsertRows(tx)) == w3;
    ReachStep(cfg, w0, w3, Commit(tx));
    assert w3.txs - {tx} == w.txs - {tx};
  }

  lemma NoneYet<K, V>(m: map<K, V>)
    ensures map[] + m == m
  {
  }

  lemma FirstFinishes(t: Triple, backfill: bool)
    ensures var w := Racing(t, backfill);
            World(Finished(w, w.txs[0], 1), w.txs - {0}, w.seeders) == AfterFirst(t, backfill)
  {
    var w := Racing(t, backfill);
    NewRowsOne(map[], 1, 1);
    NewLegacyOne(map[], t, 1);
    NoneYet(NewRows(w.db.data, w.txs[0].rows, 1));
    NoneYet(NewLegacyRows(w.db.legacy, w.txs[0].rows, t));
    assert Finished(w, w.txs[0], 1).registry == map[t := Some(1)];
    assert w.txs - {0} == AfterFirst(t, backfill).txs;
  }

  lemma SecondFinishes(t: Triple, backfill: bool)
    ensures var w := AfterFirst(t, backfill);
            World(Finished(w, w.txs[1], 2), w.txs - {1}, w.seeders) == AfterSecond(t, backfill)
  {
    var w := AfterFirst(t, backfill);
    NewRowsOne(w.db.data, 2, 2);
    NewLegacyOne(w.db.legacy, t, 2);
    assert w.txs - {1} == map[];
  }

  // Both racing transactions run to their commits, one after the other.
  lemma RaceEnds(cfg: Config, t: Triple, backfill: bool)
    requires !cfg.exclusive && (if backfill then !cfg.bindsByNumber else !cfg.readsBack)
    ensures Reaches(cfg, Quiet(Racing(t, backfill).db), AfterFirst(t, backfill))
    ensures Reaches(cfg, AfterFirst(t, backfill), AfterSecond(t, backfill))
    ensures Reaches(cfg, Quiet(Racing(t, backfill).db), AfterSecond(t, backfill))
  {
    RacingIsReached(cfg, t, backfill);
    FinishIsReached(cfg, Quiet(Racing(t, backfill).db), Racing(t, backfill), 0);
    FirstFinishes(t, backfill);
    ReachNothing(cfg, AfterFirst(t, backfill));
    SecondIsReached(cfg, AfterFirst(t, backfill), t, backfill);
    SecondIsReached(cfg, Quiet(Racing(t, backfill).db), t, backfill);
  }

  lemma SecondIsReached(cfg: Config, w0: World, t: Triple, backfill: bool)
    requires !cfg.exclusive && (if backfill then !cfg.bindsByNumber else !cfg.readsBack) && Reaches(cfg, w0, AfterFirst(t, backfill))
    ensures Reaches(cfg, w0, AfterSecond(t, backfill))
  {
    FinishIsReached(cfg, w0, AfterFirst(t, backfill), 1);
    SecondFinishes(t, backfill);
  }

  lemma OneNumber(n: int)
    ensures Numbers([(n, [])]) == {n}
  {
    var rows: Rows := [(n, [])];
    assert rows[0].0 == n;
  }

  lemma NewRowsOne(data: map<(int, int), Cells>, n: int, key: int)
    requires (key, n) !in data
    ensures NewRows(data, [(n, [])], key) == map[(key, n) := []]
  {
    OneNumber(n);
    NewRowsHas(data, [(n, [])], key, key, n);
  }

  lemma NewLegacyOne(legacy: map<(Triple, int), Cells>, t: Triple, n: int)
    requires (t, n) !in legacy
    ensures NewLegacyRows(legacy, [(n, [])], t) == map[(t, n) := []]
  {
    OneNumber(n);
    NewLegacyRowsHas(legacy, [(n, [])], t, t, n);
  }

  /**
   Where the new key is not read back, two transactions that register one file at once leave rows under a
   key no file has, and the join loses them.
   */
  lemma RaceLosesRows(cfg: Config, t: Triple)
    requires !cfg.exclusive && !cfg.readsBack
    ensures exists w :: Reaches(cfg, Quiet(Racing(t, false).db), w) && Join(w.db) != LegacyRows(w.db)
  {
    RaceEnds(cfg, t, false);
    var w := AfterSecond(t, false);
    assert (t, 2) in w.db.legacy && JoinedRow(t, 2, []) in LegacyRows(w.db) && JoinedRow(t, 2, []) !in Join(w.db);
    assert Join(w.db) != LegacyRows(w.db);
  }

  /**
   And where two transactions give a key to one registered file, the second key replaces the first, and the join loses the rows
   under the first, whatever is read back; it takes a dialect that binds by position.
   */
  lemma BackfillRaceChangesKey(cfg: Config, t: Triple)
    requires !cfg.exclusive && !cfg.bindsByNumber
    ensures exists w1, w2 :: (
      && Reaches(cfg, Quiet(Racing(t, true).db), w1) && Reaches(cfg, w1, w2)
      && t in w1.db.registry && t in w2.db.registry && w1.db.registry[t] == Some(1) && w2.db.registry[t] == Some(2))
    ensures exists w :: Reaches(cfg, Quiet(Racing(t, true).db), w) && Join(w.db) != LegacyRows(w.db)
  {
    RaceEnds(cfg, t, true);
    var w := AfterSecond(t, true);
    assert AfterFirst(t, true).db.registry[t] == Some(1) && w.db.registry[t] == Some(2);
    assert (t, 1) in w.db.legacy && JoinedRow(t, 1, []) in LegacyRows(w.db) && JoinedRow(t, 1, []) !in Join(w.db);
    assert Join(w.db) != LegacyRows(w.db);
  }

  // ---------------------------------------------------------------- exactly when

  // The join is the table it replaces, from any sound database on.
  ghost predicate Refines(cfg: Config) {
    forall db, w :: DBSound(db) && Reaches(cfg, Quiet(db), w) ==> Join(w.db) == LegacyRows(w.db)
  }

  /**
   The key table stands for the table it replaces exactly in the configurations that write a file by one transaction at a time,
   or read keys back and cannot backfill.
   */
  lemma RefinesIff(cfg: Config)
    ensures Refines(cfg) <==> cfg.exclusive || (cfg.readsBack && cfg.bindsByNumber)
  {
    var t := Triple("", Civil(1, 1, 1), "");
    if Safe(cfg) {
      forall db, w | DBSound(db) && Reaches(cfg, Quiet(db), w) ensures Join(w.db) == LegacyRows(w.db) {
        JoinRefinesLegacy(cfg, db, w);
      }
    } else if !cfg.readsBack {
      RacingIsReached(cfg, t, false);
      RaceLosesRows(cfg, t);
    } else {
      RacingIsReached(cfg, t, true);
      BackfillRaceChangesKey(cfg, t);
    }
  }

  // A file that has a key has it for good, from any sound registry on.
  ghost predicate KeysStay(cfg: Config) {
    forall db, w, w', t :: RegistrySound(db) && Reaches(cfg, Quiet(db), w) && Reaches(cfg, w, w') ==> KeepsKey(w, w', t)
  }

  /** Keys never change exactly in the configurations that write a file by one transaction at a time, or cannot backfill. */
  lemma KeysStayIff(cfg: Config)
    ensures KeysStay(cfg) <==> cfg.exclusive || cfg.bindsByNumber
  {
    if cfg.exclusive || cfg.bindsByNumber {
      forall db, w, w', t | RegistrySound(db) && Reaches(cfg, Quiet(db), w) && Reaches(cfg, w, w') ensures KeepsKey(w, w', t) {
        KeyNeverChanges(cfg, db, w, w', t);
      }
    } else {
      var t := Triple("", Civil(1, 1, 1), "");
      RacingIsReached(cfg, t, true);
      BackfillRaceChangesKey(cfg, t);
      var w1, w2 :| (
        && Reaches(cfg, Quiet(Racing(t, true).db), w1) && Reaches(cfg, w1, w2)
        && t in w1.db.registry && t in w2.db.registry && w1.db.registry[t] == Some(1) && w2.db.registry[t] == Some(2));
      assert !KeepsKey(w1, w2, t);
    }
  }

  // ---------------------------------------------------------------- dialect by dialect

  // What a dialect does: the MERGE dialects read keys back, `$n` and `@pn` name their argument.
  function ConfigOf(dialect: Dialect, exclusive: bool): Config {
    Config(exclusive, dialect in {Oracle, SqlServer}, dialect in {Postgres, SqlServer})
  }

  /**
   When several transactions may write one file, the join is the four-column table for SQL Server only, and keys are kept by
   PostgreSQL and SQL Server only; these two are the dialects in which a registry row without a key is never filled.
   */
  lemma ByDialect(d: Dialect, db: DB, t: Triple)
    requires DBSound(db)
    ensures Refines(ConfigOf(d, true)) && KeysStay(ConfigOf(d, true))
    ensures Refines(ConfigOf(d, false)) <==> d == SqlServer
    ensures KeysStay(ConfigOf(d, false)) <==> d in {Postgres, SqlServer}
    ensures CanResolve(ConfigOf(d, true), db, t) <==> d in {MySql, Sqlite, Oracle} || t !in db.registry || db.registry[t].Some?
  {
    RefinesIff(ConfigOf(d, true));
    RefinesIff(ConfigOf(d, false));
    KeysStayIff(ConfigOf(d, true));
    KeysStayIff(ConfigOf(d, false));
    ResolvableIff(ConfigOf(d, true), db, t);
  }
}
