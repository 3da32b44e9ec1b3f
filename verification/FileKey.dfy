/**
 The integer file key: a counter row, the file registry that maps a file to its key, and data rows stored under keys, written by
 concurrent transactions. Beside them runs the table it replaces, keyed by the file itself; reading joins data and registry.
 */
module FileKeys {
  import opened Wrappers
  import opened Model

  datatype Triple = Triple(source: SourceID, date: CollectionDate, fileID: string)

  type Cells = seq<Option<string>>

  type Rows = seq<(int, Cells)>

  datatype DB = DB(counter: Option<int>, registry: map<Triple, Option<int>>, data: map<(int, int), Cells>,
                   legacy: map<(Triple, int), Cells>)

  // Where a transaction stands between two statements.
  datatype Stage =
    | Opened
    | Issuing(backfill: bool, seeded: bool)       // about to advance the counter
    | Seeding(backfill: bool)                     // the counter row is missing
    | Based(backfill: bool, base: int)            // about to insert the counter row
    | Issued(backfill: bool, key: int)            // about to register the key
    | Keyed(key: int)                             // about to insert the rows
    | Written(key: int)

  // What a transaction has written and not committed: the counter (and with it the lock on its row), the key, the rows.
  datatype Tx = Tx(triple: Triple, rows: Rows, stage: Stage, counter: Option<int>, keyed: Option<int>, data: map<(int, int), Cells>)

  // Seeders insert the counter row outside of transactions, from a baseline they read before.
  datatype World = World(db: DB, txs: map<nat, Tx>, seeders: map<nat, int>)

  // `exclusive`: at most one open transaction per file. `readsBack`: the registry insert is a MERGE, and the key is read back.
  // `bindsByNumber`: the dialect's placeholders name their argument, as `$4` and `@p4` do; `?` takes the next one.
  datatype Config = Config(exclusive: bool, readsBack: bool, bindsByNumber: bool)

  // A statement with these placeholder numbers runs on so many arguments.
  predicate Binds(cfg: Config, numbers: seq<nat>, args: nat) {
    if cfg.bindsByNumber then forall i :: 0 <= i < |numbers| ==> 1 <= numbers[i] <= args else |numbers| == args
  }

  // The UPDATE that puts a key on a registry row is numbered from four and given four arguments.
  const BACKFILL_NUMBERS: seq<nat> := [4, 5, 6, 7]

  const BACKFILL_ARGS: nat := 4

  // The lookup and the insert are numbered from one.
  const INSERT_NUMBERS: seq<nat> := [1, 2, 3, 4, 5, 6, 7, 8, 9]

  lemma BackfillBinds(cfg: Config)
    ensures Binds(cfg, BACKFILL_NUMBERS, BACKFILL_ARGS) <==> !cfg.bindsByNumber
    ensures Binds(cfg, INSERT_NUMBERS, |INSERT_NUMBERS|)
  {
    assert BACKFILL_NUMBERS[1] == 5;
  }

  datatype Event =
    | Open(tx: nat, triple: Triple, rows: Rows)
    | Lookup(tx: nat)
    | Advance(tx: nat)
    | ReadBase(tx: nat, base: int)
    | SeedCounter(tx: nat)
    | Register(tx: nat)
    | InsertRows(tx: nat)
    | Commit(tx: nat)
    | Rollback(tx: nat)
    | ProbeBase(seeder: nat, base: int)
    | SeedOutside(seeder: nat)

  // ---------------------------------------------------------------- statements

  predicate KeysBelow(registry: map<Triple, Option<int>>, v: int) {
    forall t :: t in registry && registry[t].Some? ==> registry[t].value <= v
  }

  // MAX(file_key), or 0 without keys.
  predicate IsBaseline(registry: map<Triple, Option<int>>, base: int) {
    && KeysBelow(registry, base)
    && ((base == 0 && forall t :: t in registry ==> registry[t].None?) || exists t :: t in registry && registry[t] == Some(base))
  }

  // No transaction but `me` holds the lock on the counter row.
  predicate CounterFree(w: World, me: nat) {
    forall t :: t in w.txs && t != me ==> w.txs[t].counter.None?
  }

  predicate RegistryFree(w: World, me: nat)
    requires me in w.txs
  {
    forall t :: t in w.txs && t != me && w.txs[t].triple == w.txs[me].triple ==> w.txs[t].keyed.None?
  }

  function Numbers(rows: Rows): set<int> {
    set i | 0 <= i < |rows| :: rows[i].0
  }

  // The first row with a number: later ones meet it as a conflict and are not inserted.
  function FirstRow(rows: Rows, n: int): Cells
    requires n in Numbers(rows)
  {
    if rows[0].0 == n then rows[0].1 else
      assert n in Numbers(rows[1..]) by {
        var i :| 0 <= i < |rows| && rows[i].0 == n;
        assert rows[1..][i - 1] == rows[i];
      }
      FirstRow(rows[1..], n)
  }

  function NewRows(data: map<(int, int), Cells>, rows: Rows, key: int): map<(int, int), Cells> {
    map n | n in Numbers(rows) && (key, n) !in data :: (key, n) := FirstRow(rows, n)
  }

  function NewLegacyRows(legacy: map<(Triple, int), Cells>, rows: Rows, t: Triple): map<(Triple, int), Cells> {
    map n | n in Numbers(rows) && (t, n) !in legacy :: (t, n) := FirstRow(rows, n)
  }

  // No other transaction has inserted a row of these numbers under the key: the unique index makes the second wait.
  predicate RowsFree(w: World, me: nat, rows: Rows, key: int) {
    forall t, n :: t in w.txs && t != me && n in Numbers(rows) ==> (key, n) !in w.txs[t].data
  }

  predicate KeyTaken(db: DB, t: Triple, key: int) {
    exists u :: u in db.registry && u != t && db.registry[u] == Some(key)
  }

  predicate Enabled(cfg: Config, w: World, e: Event) {
    match e
    case Open(tx, triple, _) =>
      tx !in w.txs && (cfg.exclusive ==> forall t :: t in w.txs ==> w.txs[t].triple != triple)
    case Lookup(tx) => tx in w.txs && w.txs[tx].stage.Opened?
    case Advance(tx) =>
      tx in w.txs && w.txs[tx].stage.Issuing? && (CounterFree(w, tx) || (w.db.counter.None? && w.txs[tx].counter.None?))
    case ReadBase(tx, base) => tx in w.txs && w.txs[tx].stage.Seeding? && IsBaseline(w.db.registry, base)
    case SeedCounter(tx) => tx in w.txs && w.txs[tx].stage.Based? && CounterFree(w, tx)
    case Register(tx) => tx in w.txs && w.txs[tx].stage.Issued? && RegistryFree(w, tx)
    case InsertRows(tx) => tx in w.txs && w.txs[tx].stage.Keyed? && RowsFree(w, tx, w.txs[tx].rows, w.txs[tx].stage.key)
    case Commit(tx) => tx in w.txs && w.txs[tx].stage.Written?
    case Rollback(tx) => tx in w.txs
    case ProbeBase(s, base) => s !in w.seeders && IsBaseline(w.db.registry, base)
    case SeedOutside(s) => s in w.seeders && forall t :: t in w.txs ==> w.txs[t].counter.None?
  }

  function AfterLookup(db: DB, x: Tx): Tx {
    if x.triple !in db.registry then x.(stage := Issuing(false, false))
    else if db.registry[x.triple].None? then x.(stage := Issuing(true, false))
    else x.(stage := Keyed(db.registry[x.triple].value))
  }

  // No result is a failed statement: the transaction is rolled back.
  function AfterAdvance(db: DB, x: Tx): Option<Tx>
    requires x.stage.Issuing?
  {
    if x.counter.Some? then Some(x.(counter := Some(x.counter.value + 1), stage := Issued(x.stage.backfill, x.counter.value + 1)))
    else if db.counter.Some? then Some(x.(counter := Some(db.counter.value + 1), stage := Issued(x.stage.backfill, db.counter.value + 1)))
    else if x.stage.seeded then None
    else Some(x.(stage := Seeding(x.stage.backfill)))
  }

  function AfterSeed(db: DB, x: Tx): Tx
    requires x.stage.Based?
  {
    x.(counter := if db.counter.Some? then x.counter else Some(x.stage.base), stage := Issuing(x.stage.backfill, true))
  }

  function AfterRegister(cfg: Config, db: DB, x: Tx): Option<Tx>
    requires x.stage.Issued?
  {
    var key := x.stage.key;
    if !x.stage.backfill && x.triple in db.registry then
      if !cfg.readsBack then Some(x.(stage := Keyed(key)))
      else if db.registry[x.triple].None? then None
      else Some(x.(stage := Keyed(db.registry[x.triple].value)))
    else if x.stage.backfill && !Binds(cfg, BACKFILL_NUMBERS, BACKFILL_ARGS) then None
    else if KeyTaken(db, x.triple, key) then None
    else Some(x.(keyed := Some(key), stage := Keyed(key)))
  }

  function AfterInsert(db: DB, x: Tx): Tx
    requires x.stage.Keyed?
  {
    x.(data := NewRows(db.data, x.rows, x.stage.key), stage := Written(x.stage.key))
  }

  function Committed(db: DB, x: Tx): DB {
    DB(if x.counter.Some? then x.counter else db.counter,
       if x.keyed.Some? then db.registry[x.triple := x.keyed] else db.registry,
       db.data + x.data,
       db.legacy + NewLegacyRows(db.legacy, x.rows, x.triple))
  }

  function Update(w: World, tx: nat, x: Option<Tx>): World {
    w.(txs := if x.Some? then w.txs[tx := x.value] else w.txs - {tx})
  }

  function Apply(cfg: Config, w: World, e: Event): World
    requires Enabled(cfg, w, e)
  {
    match e
    case Open(tx, triple, rows) => Update(w, tx, Some(Tx(triple, rows, Opened, None, None, map[])))
    case Lookup(tx) => Update(w, tx, Some(AfterLookup(w.db, w.txs[tx])))
    case Advance(tx) => Update(w, tx, AfterAdvance(w.db, w.txs[tx]))
    case ReadBase(tx, base) => Update(w, tx, Some(w.txs[tx].(stage := Based(w.txs[tx].stage.backfill, base))))
    case SeedCounter(tx) => Update(w, tx, Some(AfterSeed(w.db, w.txs[tx])))
    case Register(tx) => Update(w, tx, AfterRegister(cfg, w.db, w.txs[tx]))
    case InsertRows(tx) => Update(w, tx, Some(AfterInsert(w.db, w.txs[tx])))
    case Commit(tx) => Update(w.(db := Committed(w.db, w.txs[tx])), tx, None)
    case Rollback(tx) => Update(w, tx, None)
    case ProbeBase(s, base) => w.(seeders := w.seeders[s := base])
    case SeedOutside(s) =>
      w.(db := if w.db.counter.None? then w.db.(counter := Some(w.seeders[s])) else w.db, seeders := w.seeders - {s})
  }

  // ---------------------------------------------------------------- what holds of the tables

  ghost predicate KeysDistinct(registry: map<Triple, Option<int>>) {
    forall t, u :: t in registry && u in registry && registry[t].Some? && registry[t] == registry[u] ==> t == u
  }

  // Every data row belongs to a registered file.
  ghost predicate DataOwned(db: DB) {
    forall x :: x in db.data ==> exists t :: t in db.registry && db.registry[t] == Some(x.0)
  }

  // What is found for one file and row number by way of the registry.
  function Seen(db: DB, t: Triple, n: int): Option<Cells> {
    if t in db.registry && db.registry[t].Some? then Find(db.data, (db.registry[t].value, n)) else None
  }

  ghost predicate SameRows(db: DB) {
    forall t, n :: Seen(db, t, n) == Find(db.legacy, (t, n))
  }

  ghost predicate RegistrySound(db: DB) {
    (db.counter.Some? ==> KeysBelow(db.registry, db.counter.value)) && KeysDistinct(db.registry)
  }

  ghost predicate DBSound(db: DB) {
    RegistrySound(db) && DataOwned(db) && SameRows(db)
  }

  // ---------------------------------------------------------------- keys, in every configuration

  // What a transaction holds of counter and keys at its stage.
  predicate TxKeys(db: DB, x: Tx) {
    && (x.counter.Some? ==> KeysBelow(db.registry, x.counter.value))
    && (x.keyed.Some? ==> x.counter == x.keyed && KeysBelow(db.registry, x.keyed.value - 1))
    && match x.stage
       case Opened => x.counter.None? && x.keyed.None?
       case Issuing(_, seeded) => x.keyed.None? && (seeded ==> x.counter.Some? || db.counter.Some?)
       case Seeding(_) => x.counter.None? && x.keyed.None?
       case Based(_, base) => x.counter.None? && x.keyed.None? && (db.counter.None? ==> KeysBelow(db.registry, base))
       case Issued(_, key) => x.keyed.None? && x.counter == Some(key) && KeysBelow(db.registry, key - 1)
       case Keyed(key) => x.keyed.Some? ==> x.keyed == Some(key)
       case Written(key) => x.keyed.Some? ==> x.keyed == Some(key)
  }

  // At most one transaction holds the counter row.
  ghost predicate OneHolder(w: World) {
    forall t, u :: t in w.txs && u in w.txs && w.txs[t].counter.Some? && w.txs[u].counter.Some? ==> t == u
  }

  // A baseline read before keys were issued is too low, but then the counter row is there and the baseline is not used.
  ghost predicate SeedersSound(w: World) {
    w.db.counter.None? ==> forall s :: s in w.seeders ==> KeysBelow(w.db.registry, w.seeders[s])
  }

  ghost predicate KeyInv(w: World) {
    RegistrySound(w.db) && (forall t :: t in w.txs ==> TxKeys(w.db, w.txs[t])) && OneHolder(w) && SeedersSound(w)
  }

  lemma UpdateKeepsKeys(w: World, tx: nat, x: Option<Tx>)
    requires KeyInv(w) && tx in w.txs
    requires x.Some? ==> TxKeys(w.db, x.value)
    requires x.Some? && x.value.counter.Some? ==> w.txs[tx].counter.Some? || CounterFree(w, tx)
    ensures KeyInv(Update(w, tx, x))
  {
  }

  /** A counter row that was seeded is there when it is advanced. */
  lemma SeededCounterIsThere(cfg: Config, w: World, tx: nat)
    requires KeyInv(w) && Enabled(cfg, w, Advance(tx)) && w.txs[tx].stage.seeded
    ensures AfterAdvance(w.db, w.txs[tx]).Some? && AfterAdvance(w.db, w.txs[tx]).value.stage.Issued?
  {
    assert TxKeys(w.db, w.txs[tx]);
  }

  /** The unique index on the key never refuses an issued key, whatever is open beside it. */
  lemma UniqueIndexNeverFires(cfg: Config, w: World, tx: nat)
    requires KeyInv(w) && Enabled(cfg, w, Register(tx))
    ensures !KeyTaken(w.db, w.txs[tx].triple, w.txs[tx].stage.key)
  {
    assert TxKeys(w.db, w.txs[tx]);
  }

  lemma RegisterKeepsKeys(cfg: Config, w: World, tx: nat)
    requires KeyInv(w) && Enabled(cfg, w, Register(tx))
    ensures KeyInv(Apply(cfg, w, Register(tx)))
  {
    assert TxKeys(w.db, w.txs[tx]);
    UpdateKeepsKeys(w, tx, AfterRegister(cfg, w.db, w.txs[tx]));
  }

  lemma AdvanceKeepsKeys(cfg: Config, w: World, tx: nat)
    requires KeyInv(w) && Enabled(cfg, w, Advance(tx))
    ensures KeyInv(Apply(cfg, w, Advance(tx)))
  {
    assert TxKeys(w.db, w.txs[tx]);
    UpdateKeepsKeys(w, tx, AfterAdvance(w.db, w.txs[tx]));
  }

  lemma SeedKeepsKeys(cfg: Config, w: World, tx: nat)
    requires KeyInv(w) && Enabled(cfg, w, SeedCounter(tx))
    ensures KeyInv(Apply(cfg, w, SeedCounter(tx)))
  {
    assert TxKeys(w.db, w.txs[tx]);
    UpdateKeepsKeys(w, tx, Some(AfterSeed(w.db, w.txs[tx])));
  }

  lemma CommitKeepsKeys(cfg: Config, w: World, tx: nat)
    requires KeyInv(w) && Enabled(cfg, w, Commit(tx))
    ensures KeyInv(Apply(cfg, w, Commit(tx)))
  {
    var x, w' := w.txs[tx], Apply(cfg, w, Commit(tx));
    assert TxKeys(w.db, x);
    forall t | t in w'.txs ensures TxKeys(w'.db, w'.txs[t]) { assert TxKeys(w.db, w.txs[t]); }
  }

  /** Every statement of every transaction keeps counter and keys sound, however many transactions write one file. */
  lemma StepKeepsKeys(cfg: Config, w: World, e: Event)
    requires KeyInv(w) && Enabled(cfg, w, e)
    ensures KeyInv(Apply(cfg, w, e))
  {
    match e
    case Open(tx, triple, rows) =>
    case Lookup(tx) => UpdateKeepsKeys(w, tx, Some(AfterLookup(w.db, w.txs[tx])));
    case Advance(tx) => AdvanceKeepsKeys(cfg, w, tx);
    case ReadBase(tx, base) => UpdateKeepsKeys(w, tx, Some(w.txs[tx].(stage := Based(w.txs[tx].stage.backfill, base))));
    case SeedCounter(tx) => SeedKeepsKeys(cfg, w, tx);
    case Register(tx) => RegisterKeepsKeys(cfg, w, tx);
    case InsertRows(tx) => UpdateKeepsKeys(w, tx, Some(AfterInsert(w.db, w.txs[tx])));
    case Commit(tx) => CommitKeepsKeys(cfg, w, tx);
    case Rollback(tx) => UpdateKeepsKeys(w, tx, None);
    case ProbeBase(s, base) =>
    case SeedOutside(s) =>
  }

  // ---------------------------------------------------------------- rows, where they are safe

  // Files are written by one transaction at a time, or the dialect reads keys back and cannot backfill.
  predicate Safe(cfg: Config) {
    cfg.exclusive || (cfg.readsBack && cfg.bindsByNumber)
  }

  predicate NoKeyYet(db: DB, t: Triple, backfill: bool) {
    if backfill then t in db.registry && db.registry[t].None? else t !in db.registry
  }

  // The key a transaction writes under: the file's own, or a new one, which the file does not have yet.
  predicate KeyHeld(db: DB, x: Tx, key: int) {
    if x.keyed.None? then x.triple in db.registry && db.registry[x.triple] == Some(key)
    else x.keyed == Some(key) && (x.triple in db.registry ==> db.registry[x.triple].None?)
  }

  predicate TxRows(cfg: Config, db: DB, x: Tx) {
    match x.stage
    case Opened => x.data == map[]
    case Issuing(backfill, _) => x.data == map[] && (cfg.exclusive ==> NoKeyYet(db, x.triple, backfill))
    case Seeding(backfill) => x.data == map[] && (cfg.exclusive ==> NoKeyYet(db, x.triple, backfill))
    case Based(backfill, _) => x.data == map[] && (cfg.exclusive ==> NoKeyYet(db, x.triple, backfill))
    case Issued(backfill, _) => x.data == map[] && (cfg.exclusive ==> NoKeyYet(db, x.triple, backfill))
    case Keyed(key) => x.data == map[] && KeyHeld(db, x, key)
    case Written(key) => KeyHeld(db, x, key) && x.data == NewRows(db.data, x.rows, key)
  }

  ghost predicate OneEach(cfg: Config, w: World) {
    cfg.exclusive ==> forall t, u :: t in w.txs && u in w.txs && w.txs[t].triple == w.txs[u].triple ==> t == u
  }

  // No two transactions have inserted one row.
  ghost predicate RowsApart(w: World) {
    forall t, u, d :: t in w.txs && u in w.txs && t != u && d in w.txs[t].data ==> d !in w.txs[u].data
  }

  ghost predicate RowInv(cfg: Config, w: World) {
    && DataOwned(w.db) && SameRows(w.db)
    && (forall t :: t in w.txs ==> TxRows(cfg, w.db, w.txs[t]))
    && OneEach(cfg, w) && RowsApart(w)
  }

  ghost predicate Inv(cfg: Config, w: World) {
    KeyInv(w) && RowInv(cfg, w)
  }

  lemma UpdateKeepsRows(cfg: Config, w: World, tx: nat, x: Option<Tx>)
    requires RowInv(cfg, w) && tx in w.txs
    requires x.Some? ==> TxRows(cfg, w.db, x.value) && x.value.triple == w.txs[tx].triple
    requires x.Some? ==> forall u, d :: u in w.txs && u != tx && d in w.txs[u].data ==> d !in x.value.data
    ensures RowInv(cfg, Update(w, tx, x))
  {
  }

  lemma LookupKeepsRows(cfg: Config, w: World, tx: nat)
    requires Inv(cfg, w) && Enabled(cfg, w, Lookup(tx))
    ensures RowInv(cfg, Apply(cfg, w, Lookup(tx)))
  {
    assert TxRows(cfg, w.db, w.txs[tx]) && TxKeys(w.db, w.txs[tx]);
    UpdateKeepsRows(cfg, w, tx, Some(AfterLookup(w.db, w.txs[tx])));
  }

  lemma AdvanceKeepsRows(cfg: Config, w: World, tx: nat)
    requires Inv(cfg, w) && Enabled(cfg, w, Advance(tx))
    ensures RowInv(cfg, Apply(cfg, w, Advance(tx)))
  {
    assert TxRows(cfg, w.db, w.txs[tx]);
    UpdateKeepsRows(cfg, w, tx, AfterAdvance(w.db, w.txs[tx]));
  }

  lemma RegisterKeepsRows(cfg: Config, w: World, tx: nat)
    requires Inv(cfg, w) && Safe(cfg) && Enabled(cfg, w, Register(tx))
    ensures RowInv(cfg, Apply(cfg, w, Register(tx)))
  {
    assert TxRows(cfg, w.db, w.txs[tx]) && TxKeys(w.db, w.txs[tx]);
    BackfillBinds(cfg);
    UpdateKeepsRows(cfg, w, tx, AfterRegister(cfg, w.db, w.txs[tx]));
  }

  lemma InsertKeepsRows(cfg: Config, w: World, tx: nat)
    requires Inv(cfg, w) && Enabled(cfg, w, InsertRows(tx))
    ensures RowInv(cfg, Apply(cfg, w, InsertRows(tx)))
  {
    var x := w.txs[tx];
    assert TxRows(cfg, w.db, x);
    forall u, d | u in w.txs && u != tx && d in w.txs[u].data ensures d !in NewRows(w.db.data, x.rows, x.stage.key) {
      NewRowsHas(w.db.data, x.rows, x.stage.key, d.0, d.1);
      assert d == (d.0, d.1);
    }
    UpdateKeepsRows(cfg, w, tx, Some(AfterInsert(w.db, x)));
  }

  // The keys of two transactions that write one file at a time are different, so that none waits for a row of the other.
  lemma InsertNeverWaits(cfg: Config, w: World, tx: nat)
    requires Inv(cfg, w) && cfg.exclusive && tx in w.txs && w.txs[tx].stage.Keyed?
    ensures Enabled(cfg, w, InsertRows(tx))
  {
    var x := w.txs[tx];
    assert TxRows(cfg, w.db, x) && TxKeys(w.db, x);
    forall u, n | u in w.txs && u != tx && n in Numbers(x.rows) ensures (x.stage.key, n) !in w.txs[u].data {
      var y := w.txs[u];
      assert TxRows(cfg, w.db, y) && TxKeys(w.db, y) && y.triple != x.triple;
      if y.stage.Written? {
        NewRowsHas(w.db.data, y.rows, y.stage.key, x.stage.key, n);
        if y.stage.key == x.stage.key { KeysApart(w, tx, u, x.stage.key); }
      }
    }
  }

  lemma KeysApart(w: World, t: nat, u: nat, key: int)
    requires KeyInv(w) && t in w.txs && u in w.txs && w.txs[t].triple != w.txs[u].triple
    requires KeyHeld(w.db, w.txs[t], key)
    ensures !KeyHeld(w.db, w.txs[u], key)
  {
    assert TxKeys(w.db, w.txs[t]) && TxKeys(w.db, w.txs[u]);
  }

  // ---------------------------------------------------------------- commit

  lemma NewRowsHas(data: map<(int, int), Cells>, rows: Rows, key: int, k: int, n: int)
    ensures (k, n) in NewRows(data, rows, key) <==> k == key && n in Numbers(rows) && (key, n) !in data
    ensures (k, n) in NewRows(data, rows, key) ==> NewRows(data, rows, key)[(k, n)] == FirstRow(rows, n)
  {
  }

  lemma NewLegacyRowsHas(legacy: map<(Triple, int), Cells>, rows: Rows, t: Triple, u: Triple, n: int)
    ensures (u, n) in NewLegacyRows(legacy, rows, t) <==> u == t && n in Numbers(rows) && (t, n) !in legacy
    ensures (u, n) in NewLegacyRows(legacy, rows, t) ==> NewLegacyRows(legacy, rows, t)[(u, n)] == FirstRow(rows, n)
  {
  }

  // Rows that were committed beside it do not change what a transaction has inserted.
  lemma NewRowsStay(data: map<(int, int), Cells>, more: map<(int, int), Cells>, rows: Rows, key: int)
    requires forall d :: d in more ==> d !in data && d !in NewRows(data, rows, key)
    ensures NewRows(data + more, rows, key) == NewRows(data, rows, key)
  {
    var a, b := NewRows(data, rows, key), NewRows(data + more, rows, key);
    forall d ensures d in a <==> d in b {
      NewRowsHas(data, rows, key, d.0, d.1);
      NewRowsHas(data + more, rows, key, d.0, d.1);
      assert d == (d.0, d.1);
    }
    forall d | d in a ensures a[d] == b[d] {
      NewRowsHas(data, rows, key, d.0, d.1);
      NewRowsHas(data + more, rows, key, d.0, d.1);
      assert d == (d.0, d.1);
    }
  }

  // Nothing is stored under a key above all keys.
  lemma FreshKeyHasNoRows(db: DB, key: int)
    requires DBSound(db) && KeysBelow(db.registry, key - 1)
    ensures forall x :: x in db.data ==> x.0 < key
  {
  }

  // What a transaction that is ready to commit holds.
  predicate Ready(db: DB, x: Tx, key: int) {
    KeyHeld(db, x, key) && x.data == NewRows(db.data, x.rows, key) && (x.keyed.Some? ==> KeysBelow(db.registry, key - 1))
  }

  // A held key is no other file's.
  lemma HeldKeyIsOwn(db: DB, x: Tx, key: int, t: Triple)
    requires RegistrySound(db) && Ready(db, x, key) && t in db.registry && db.registry[t] == Some(key)
    ensures t == x.triple
  {
  }

  lemma CommitKeepsOwners(db: DB, x: Tx, key: int)
    requires DBSound(db) && Ready(db, x, key)
    ensures DataOwned(Committed(db, x))
  {
    var db' := Committed(db, x);
    forall r | r in db'.data ensures exists t :: t in db'.registry && db'.registry[t] == Some(r.0) {
      if r in x.data {
        assert db'.registry[x.triple] == Some(r.0);
      } else {
        var t :| t in db.registry && db.registry[t] == Some(r.0);
        assert db'.registry[t] == Some(r.0);
      }
    }
  }

  lemma CommitKeepsRows(db: DB, x: Tx, key: int, t: Triple, n: int)
    requires DBSound(db) && Ready(db, x, key)
    ensures Seen(Committed(db, x), t, n) == Find(Committed(db, x).legacy, (t, n))
  {
    var db' := Committed(db, x);
    assert Seen(db, t, n) == Find(db.legacy, (t, n));
    NewLegacyRowsHas(db.legacy, x.rows, x.triple, t, n);
    if t == x.triple {
      assert db'.registry[t] == Some(key);
      if x.keyed.Some? { FreshKeyHasNoRows(db, key); }
      NewRowsHas(db.data, x.rows, key, key, n);
    } else if t in db.registry && db.registry[t].Some? {
      if db.registry[t].value == key { HeldKeyIsOwn(db, x, key, t); }
      NewRowsHas(db.data, x.rows, key, db.registry[t].value, n);
    }
  }

  lemma CommitKeepsTx(cfg: Config, db: DB, x: Tx, key: int, y: Tx)
    requires Ready(db, x, key) && TxRows(cfg, db, y) && (cfg.exclusive ==> y.triple != x.triple)
    requires x.keyed.Some? ==> y.keyed.None?
    requires forall d :: d in x.data ==> d !in y.data
    ensures TxRows(cfg, Committed(db, x), y)
  {
    if y.stage.Written? {
      forall d | d in x.data ensures d !in db.data {
        NewRowsHas(db.data, x.rows, key, d.0, d.1);
        assert d == (d.0, d.1);
      }
      NewRowsStay(db.data, x.data, y.rows, y.stage.key);
    }
  }

  lemma CommitKeepsRowInv(cfg: Config, w: World, tx: nat)
    requires Inv(cfg, w) && Enabled(cfg, w, Commit(tx))
    ensures RowInv(cfg, Apply(cfg, w, Commit(tx)))
  {
    var x := w.txs[tx];
    var key, w' := x.stage.key, Apply(cfg, w, Commit(tx));
    assert TxRows(cfg, w.db, x) && TxKeys(w.db, x);
    assert Ready(w.db, x, key);
    CommitKeepsOwners(w.db, x, key);
    forall t, n ensures Seen(w'.db, t, n) == Find(w'.db.legacy, (t, n)) { CommitKeepsRows(w.db, x, key, t, n); }
    forall t | t in w'.txs ensures TxRows(cfg, w'.db, w'.txs[t]) {
      assert TxRows(cfg, w.db, w.txs[t]) && TxKeys(w.db, w.txs[t]);
      CommitKeepsTx(cfg, w.db, x, key, w.txs[t]);
    }
  }

  lemma OpenKeepsRows(cfg: Config, w: World, tx: nat, triple: Triple, rows: Rows)
    requires RowInv(cfg, w) && Enabled(cfg, w, Open(tx, triple, rows))
    ensures RowInv(cfg, Apply(cfg, w, Open(tx, triple, rows)))
  {
  }

  /** Where it is safe, every statement of every transaction keeps the data and the registry in step with the table they replace. */
  lemma StepKeepsRows(cfg: Config, w: World, e: Event)
    requires Inv(cfg, w) && Safe(cfg) && Enabled(cfg, w, e)
    ensures RowInv(cfg, Apply(cfg, w, e))
  {
    match e
    case Open(tx, triple, rows) => OpenKeepsRows(cfg, w, tx, triple, rows);
    case Lookup(tx) => LookupKeepsRows(cfg, w, tx);
    case Advance(tx) => AdvanceKeepsRows(cfg, w, tx);
    case ReadBase(tx, base) =>
      assert TxRows(cfg, w.db, w.txs[tx]);
      UpdateKeepsRows(cfg, w, tx, Some(w.txs[tx].(stage := Based(w.txs[tx].stage.backfill, base))));
    case SeedCounter(tx) =>
      assert TxRows(cfg, w.db, w.txs[tx]);
      UpdateKeepsRows(cfg, w, tx, Some(AfterSeed(w.db, w.txs[tx])));
    case Register(tx) => RegisterKeepsRows(cfg, w, tx);
    case InsertRows(tx) => InsertKeepsRows(cfg, w, tx);
    case Commit(tx) => CommitKeepsRowInv(cfg, w, tx);
    case Rollback(tx) => UpdateKeepsRows(cfg, w, tx, None);
    case ProbeBase(s, base) =>
    case SeedOutside(s) => SeedOutsideKeepsRows(cfg, w, s);
  }

  lemma SeedOutsideKeepsRows(cfg: Config, w: World, s: nat)
    requires Inv(cfg, w) && Enabled(cfg, w, SeedOutside(s))
    ensures RowInv(cfg, Apply(cfg, w, SeedOutside(s)))
  {
    var w' := Apply(cfg, w, SeedOutside(s));
    forall t | t in w'.txs ensures TxRows(cfg, w'.db, w'.txs[t]) { assert TxRows(cfg, w.db, w.txs[t]); }
  }

  lemma StepKeepsInv(cfg: Config, w: World, e: Event)
    requires Inv(cfg, w) && Safe(cfg) && Enabled(cfg, w, e)
    ensures Inv(cfg, Apply(cfg, w, e))
  {
    StepKeepsKeys(cfg, w, e);
    StepKeepsRows(cfg, w, e);
  }

  // ---------------------------------------------------------------- runs

  predicate Runs(cfg: Config, w: World, es: seq<Event>, w': World)
    decreases |es|
  {
    if es == [] then w == w' else Enabled(cfg, w, es[0]) && Runs(cfg, Apply(cfg, w, es[0]), es[1..], w')
  }

  ghost predicate Reaches(cfg: Config, w: World, w': World) {
    exists es :: Runs(cfg, w, es, w')
  }

  lemma {:induction false} RunAppend(cfg: Config, w: World, es: seq<Event>, w': World, e: Event)
    requires Runs(cfg, w, es, w') && Enabled(cfg, w', e)
    ensures Runs(cfg, w, es + [e], Apply(cfg, w', e))
    decreases |es|
  {
    if es != [] {
      RunAppend(cfg, Apply(cfg, w, es[0]), es[1..], w', e);
      assert (es + [e])[1..] == es[1..] + [e];
    }
  }

  lemma ReachStep(cfg: Config, w: World, w': World, e: Event)
    requires Reaches(cfg, w, w') && Enabled(cfg, w', e)
    ensures Reaches(cfg, w, Apply(cfg, w', e))
  {
    var es :| Runs(cfg, w, es, w');
    RunAppend(cfg, w, es, w', e);
  }

  lemma ReachNothing(cfg: Config, w: World)
    ensures Reaches(cfg, w, w)
  {
    assert Runs(cfg, w, [], w);
  }

  lemma {:induction false} RunKeepsInv(cfg: Config, w: World, es: seq<Event>, w': World)
    requires Inv(cfg, w) && Safe(cfg) && Runs(cfg, w, es, w')
    ensures Inv(cfg, w')
    decreases |es|
  {
    if es != [] {
      StepKeepsInv(cfg, w, es[0]);
      RunKeepsInv(cfg, Apply(cfg, w, es[0]), es[1..], w');
    }
  }

  lemma {:induction false} RunKeepsKeys(cfg: Config, w: World, es: seq<Event>, w': World)
    requires KeyInv(w) && Runs(cfg, w, es, w')
    ensures KeyInv(w')
    decreases |es|
  {
    if es != [] {
      StepKeepsKeys(cfg, w, es[0]);
      RunKeepsKeys(cfg, Apply(cfg, w, es[0]), es[1..], w');
    }
  }

  // No transaction and no seeder is under way.
  function Quiet(db: DB): World {
    World(db, map[], map[])
  }

  /**
   Key allocation is safe in every configuration: in every state that is reached, with transactions and seeders interleaved and
   rolled back at will, the committed counter is at least every key, and no two files have the same key.
   */
  lemma KeysAreSafe(cfg: Config, db: DB, w: World)
    requires RegistrySound(db) && Reaches(cfg, Quiet(db), w)
    ensures w.db.counter.Some? ==> KeysBelow(w.db.registry, w.db.counter.value)
    ensures KeysDistinct(w.db.registry)
  {
    var es :| Runs(cfg, Quiet(db), es, w);
    RunKeepsKeys(cfg, Quiet(db), es, w);
  }

  /** No step removes or changes a row of the table keyed by file. */
  lemma {:induction false} LegacyStays(cfg: Config, w: World, es: seq<Event>, w': World, x: (Triple, int))
    requires Runs(cfg, w, es, w') && x in w.db.legacy
    ensures x in w'.db.legacy && w'.db.legacy[x] == w.db.legacy[x]
    decreases |es|
  {
    if es != [] {
      if es[0].Commit? { NewLegacyRowsHas(w.db.legacy, w.txs[es[0].tx].rows, w.txs[es[0].tx].triple, x.0, x.1); }
      LegacyStays(cfg, Apply(cfg, w, es[0]), es[1..], w', x);
    }
  }

  // ---------------------------------------------------------------- the join

  datatype JoinedRow = JoinedRow(triple: Triple, row: int, cells: Cells)

  // data JOIN registry ON the key.
  function Join(db: DB): set<JoinedRow> {
    set d: (int, int), t: Triple | d in db.data && t in db.registry && db.registry[t] == Some(d.0) :: JoinedRow(t, d.1, db.data[d])
  }

  function LegacyRows(db: DB): set<JoinedRow> {
    set x: (Triple, int) | x in db.legacy :: JoinedRow(x.0, x.1, db.legacy[x])
  }

  lemma JoinHas(db: DB, t: Triple, n: int, cells: Cells)
    requires DBSound(db)
    ensures JoinedRow(t, n, cells) in Join(db) <==> Seen(db, t, n) == Some(cells)
  {
  }

  lemma JoinIsLegacy(db: DB)
    requires DBSound(db)
    ensures Join(db) == LegacyRows(db)
  {
    forall r: JoinedRow ensures r in Join(db) <==> r in LegacyRows(db) {
      JoinHas(db, r.triple, r.row, r.cells);
      assert r == JoinedRow(r.triple, r.row, r.cells);
      assert Seen(db, r.triple, r.row) == Find(db.legacy, (r.triple, r.row));
      if r in LegacyRows(db) {
        var x: (Triple, int) :| x in db.legacy && r == JoinedRow(x.0, x.1, db.legacy[x]);
        assert x == (r.triple, r.row);
      }
      if Find(db.legacy, (r.triple, r.row)) == Some(r.cells) {
        var x := (r.triple, r.row);
        assert x in db.legacy && r == JoinedRow(x.0, x.1, db.legacy[x]);
      }
    }
  }

  predicate Joins(db: DB, d: (int, int), t: Triple) {
    d in db.data && t in db.registry && db.registry[t] == Some(d.0)
  }

  /**
   Where it is safe, the key table stands for the table it replaces: after any interleaving of committed and rolled-back writes, joining data and
   registry gives exactly the rows the four-column table would hold; every data row joins exactly one file.
   */
  lemma JoinRefinesLegacy(cfg: Config, db: DB, w: World)
    requires DBSound(db) && Safe(cfg) && Reaches(cfg, Quiet(db), w)
    ensures Join(w.db) == LegacyRows(w.db)
    ensures forall d :: d in w.db.data ==> exists t :: Joins(w.db, d, t)
    ensures forall d, t, t' :: Joins(w.db, d, t) && Joins(w.db, d, t') ==> t == t'
  {
    var es :| Runs(cfg, Quiet(db), es, w);
    RunKeepsInv(cfg, Quiet(db), es, w);
    JoinIsLegacy(w.db);
    forall d | d in w.db.data ensures exists t :: Joins(w.db, d, t) {
      var t :| t in w.db.registry && w.db.registry[t] == Some(d.0);
      assert Joins(w.db, d, t);
    }
  }
}
