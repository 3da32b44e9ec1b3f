/** A table write in file-key mode, statement by statement, with other transactions at work between any two statements. */
module TableWriter {
  import opened Wrappers
  import opened FileKeys
  import opened FileKeyLimits
  import opened MultiRow

  predicate IsOf(e: Event, me: nat) {
    match e
    case ProbeBase(_, _) => false
    case SeedOutside(_) => false
    case _ => e.tx == me
  }

  predicate ByOthers(cfg: Config, w: World, es: seq<Event>, w': World, me: nat) {
    Runs(cfg, w, es, w') && forall i :: 0 <= i < |es| ==> !IsOf(es[i], me)
  }

  // The registry row and the stored rows of a file.
  ghost predicate SameFile(db: DB, db': DB, t: Triple) {
    Find(db.registry, t) == Find(db'.registry, t) && forall n :: Find(db.legacy, (t, n)) == Find(db'.legacy, (t, n))
  }

  lemma OtherStep(cfg: Config, w: World, e: Event, me: nat)
    requires cfg.exclusive && Inv(cfg, w) && Enabled(cfg, w, e) && !IsOf(e, me) && me in w.txs
    ensures Find(Apply(cfg, w, e).txs, me) == Find(w.txs, me) && SameFile(w.db, Apply(cfg, w, e).db, w.txs[me].triple)
  {
    if e.Commit? {
      var x := w.txs[e.tx];
      assert x.triple != w.txs[me].triple;
      forall n ensures Find(w.db.legacy, (w.txs[me].triple, n)) == Find(Apply(cfg, w, e).db.legacy, (w.txs[me].triple, n)) {
        NewLegacyRowsHas(w.db.legacy, x.rows, x.triple, w.txs[me].triple, n);
      }
    }
  }

  /** What others do leaves a transaction as it is, and the registry row and the rows of its file. */
  lemma {:induction false} OthersKeepMine(cfg: Config, w: World, es: seq<Event>, w': World, me: nat)
    requires cfg.exclusive && Inv(cfg, w) && ByOthers(cfg, w, es, w', me) && me in w.txs
    ensures Find(w'.txs, me) == Find(w.txs, me) && SameFile(w.db, w'.db, w.txs[me].triple)
    decreases |es|
  {
    if es != [] {
      assert !IsOf(es[0], me);
      assert forall i :: 0 <= i < |es[1..]| ==> es[1..][i] == es[i + 1];
      StepKeepsInv(cfg, w, es[0]);
      OtherStep(cfg, w, es[0], me);
      OthersKeepMine(cfg, Apply(cfg, w, es[0]), es[1..], w', me);
    }
  }

  lemma {:induction false} RunsOn(cfg: Config, w: World, es: seq<Event>, v: World, fs: seq<Event>, w': World)
    requires Runs(cfg, w, es, v) && Runs(cfg, v, fs, w')
    ensures Runs(cfg, w, es + fs, w')
    decreases |es|
  {
    if es == [] {
      assert es + fs == fs;
    } else {
      RunsOn(cfg, Apply(cfg, w, es[0]), es[1..], v, fs, w');
      assert (es + fs)[1..] == es[1..] + fs;
    }
  }

  lemma ReachOn(cfg: Config, w: World, v: World, fs: seq<Event>, w': World)
    requires Reaches(cfg, w, v) && Runs(cfg, v, fs, w')
    ensures Reaches(cfg, w, w')
  {
    var es :| Runs(cfg, w, es, v);
    RunsOn(cfg, w, es, v, fs, w');
  }

  // No transaction but `me` holds the counter row or a registry row.
  predicate OthersHoldNothing(w: World, me: nat) {
    forall t :: t in w.txs && t != me ==> w.txs[t].counter.None? && w.txs[t].keyed.None?
  }

  // The others can always come to that: whoever holds a row rolls back.
  lemma {:induction false} OthersLetGo(cfg: Config, w: World, me: nat) returns (es: seq<Event>, w': World)
    ensures ByOthers(cfg, w, es, w', me) && OthersHoldNothing(w', me)
    decreases |w.txs|
  {
    if OthersHoldNothing(w, me) {
      es, w' := [], w;
    } else {
      var t :| t in w.txs && t != me && !(w.txs[t].counter.None? && w.txs[t].keyed.None?);
      var v := Apply(cfg, w, Rollback(t));
      assert |v.txs| == |w.txs| - 1 by { assert v.txs.Keys == w.txs.Keys - {t} && |v.txs.Keys| == |v.txs| && |w.txs.Keys| == |w.txs|; }
      var rest;
      rest, w' := OthersLetGo(cfg, v, me);
      es := [Rollback(t)] + rest;
      assert es[1..] == rest && forall i :: 1 <= i < |es| ==> es[i] == rest[i - 1];
    }
  }

  // The transaction `me` is open for this file and these rows, at a stage.
  predicate At(w: World, me: nat, triple: Triple, rows: Rows, stage: Stage) {
    me in w.txs && w.txs[me].triple == triple && w.txs[me].rows == rows && w.txs[me].stage == stage
  }

  class Database {
    const dialect: Dialect
    const cfg: Config
    const calm: bool              // locks are granted in time and commits go through
    var w: World
    ghost var refused: bool       // a lock was not granted in time, or a commit failed
    ghost var origin: World       // where the current write began

    ghost predicate Valid()
      reads this
    {
      cfg == ConfigOf(dialect, true) && Inv(cfg, w) && Reaches(cfg, origin, w) && (calm ==> !refused)
    }

    // Since the write of the file began, its registry row and its rows are as they were.
    ghost predicate Untouched(triple: Triple)
      reads this
    {
      Valid() && SameFile(origin.db, w.db, triple)
    }

    ghost predicate Writing(me: nat, triple: Triple, rows: Rows, stage: Stage)
      reads this
    {
      Untouched(triple) && At(w, me, triple, rows, stage)
    }

    constructor (dialect: Dialect, db: DB, calm: bool)
      requires DBSound(db)
      ensures Valid() && w == Quiet(db) && this.dialect == dialect && this.calm == calm && !refused
    {
      this.dialect, cfg, this.calm, w, refused, origin := dialect, ConfigOf(dialect, true), calm, Quiet(db), false, Quiet(db);
      new;
      ReachNothing(cfg, w);
    }

    /** Other transactions and seeders run any of their statements; in a calm database they let go of the rows they hold. */
    method Interfere(me: nat, ghost triple: Triple, ghost rows: Rows, ghost stage: Stage)
      requires Writing(me, triple, rows, stage)
      modifies `w
      ensures Writing(me, triple, rows, stage) && (calm ==> OthersHoldNothing(w, me))
    {
      ghost var fs, u := OthersLetGo(cfg, w, me);
      var es, v :| ByOthers(cfg, w, es, v, me) && (calm ==> OthersHoldNothing(v, me));
      assert ByOthers(cfg, w, es, v, me);
      RunKeepsInv(cfg, w, es, v);
      OthersKeepMine(cfg, w, es, v, me);
      ReachOn(cfg, origin, w, es, v);
      w := v;
    }

    method Do(e: Event)
      requires Valid() && Enabled(cfg, w, e)
      modifies `w
      ensures Valid() && w == Apply(cfg, old(w), e)
    {
      StepKeepsInv(cfg, w, e);
      ReachStep(cfg, origin, w, e);
      w := Apply(cfg, w, e);
    }
  }

  /** Ends the transaction without a trace in the tables, if a failed statement has not ended it already. */
  method Undo(db: Database, me: nat)
    requires db.Valid()
    modifies db`w
    ensures db.Valid() && me !in db.w.txs && db.w.db == old(db.w.db)
  {
    if me in db.w.txs {
      db.Do(Rollback(me));
    }
  }

  /** The largest key in use, 0 if there is none. */
  method FileKeyBaseline(registry: map<Triple, Option<int>>) returns (base: int)
    ensures IsBaseline(registry, base)
  {
    var todo, found := registry.Keys, None;
    while todo != {}
      invariant todo <= registry.Keys
      invariant found.None? ==> forall t :: t in registry && t !in todo ==> registry[t].None?
      invariant found.Some? ==> exists t :: t in registry && registry[t] == found
      invariant forall t :: t in registry && t !in todo && registry[t].Some? ==> found.Some? && registry[t].value <= found.value
    {
      var t :| t in todo;
      if registry[t].Some? && (found.None? || found.value < registry[t].value) {
        found := registry[t];
      }
      todo := todo - {t};
    }
    base := if found.Some? then found.value else 0;
  }

  method ReadBaseline(db: Database, me: nat, triple: Triple, rows: Rows, backfill: bool) returns (base: int)
    requires db.Writing(me, triple, rows, Seeding(backfill))
    modifies db`w
    ensures db.Writing(me, triple, rows, Based(backfill, base))
  {
    db.Interfere(me, triple, rows, Seeding(backfill));
    base := FileKeyBaseline(db.w.db.registry);
    db.Do(ReadBase(me, base));
  }

  /** Inserts the counter row unless it is there, at the largest key in use. */
  method SeedFileKeyCounter(db: Database, me: nat, triple: Triple, rows: Rows, backfill: bool) returns (ok: bool)
    requires db.Writing(me, triple, rows, Seeding(backfill))
    modifies db`w, db`refused
    ensures if ok then db.Writing(me, triple, rows, Issuing(backfill, true)) else db.Untouched(triple)
    ensures db.refused == (old(db.refused) || !ok) && (db.calm ==> ok)
  {
    var base := ReadBaseline(db, me, triple, rows, backfill);
    db.Interfere(me, triple, rows, Based(backfill, base));
    ok := Enabled(db.cfg, db.w, SeedCounter(me));
    if ok {
      db.Do(SeedCounter(me));
    } else {
      db.refused := true;
    }
  }

  /** Adds one to the counter row and reads it back; `missing`: there is no such row, and this was the first try. */
  method AdvanceCounter(db: Database, me: nat, triple: Triple, rows: Rows, backfill: bool, seeded: bool)
    returns (key: Option<int>, missing: bool)
    requires db.Writing(me, triple, rows, Issuing(backfill, seeded))
    modifies db`w, db`refused
    ensures db.Untouched(triple) && (key.None? && !missing ==> db.refused) && (old(db.refused) ==> db.refused)
    ensures key.Some? ==> !missing && db.Writing(me, triple, rows, Issued(backfill, key.value))
    ensures db.calm ==> key.Some? || missing
    ensures missing ==> !seeded && key.None? && db.Writing(me, triple, rows, Seeding(backfill))
  {
    db.Interfere(me, triple, rows, Issuing(backfill, seeded));
    if !Enabled(db.cfg, db.w, Advance(me)) {
      db.refused := true;
      return None, false;
    }
    if seeded { SeededCounterIsThere(db.cfg, db.w, me); }
    db.Do(Advance(me));
    if db.w.txs[me].stage.Issued? {
      return Some(db.w.txs[me].stage.key), false;
    }
    return None, true;
  }

  /** The next key: from the counter row, which is seeded when it is missing. */
  method NextFileKey(db: Database, me: nat, triple: Triple, rows: Rows, backfill: bool) returns (key: Option<int>)
    requires db.Writing(me, triple, rows, Issuing(backfill, false))
    modifies db`w, db`refused
    ensures if key.Some? then db.Writing(me, triple, rows, Issued(backfill, key.value)) else db.Untouched(triple)
    ensures (key.None? ==> db.refused) && (old(db.refused) ==> db.refused) && (db.calm ==> key.Some?)
  {
    var missing: bool;
    key, missing := AdvanceCounter(db, me, triple, rows, backfill, false);
    if missing {
      var seeded := SeedFileKeyCounter(db, me, triple, rows, backfill);
      if seeded {
        key, missing := AdvanceCounter(db, me, triple, rows, backfill, true);
      }
    }
  }

  // Finds out whether the file has a key, a registry row without one, or none.
  method LookUp(db: Database, me: nat, triple: Triple, rows: Rows) returns (stage: Stage)
    requires db.Writing(me, triple, rows, Opened)
    modifies db`w
    ensures db.Writing(me, triple, rows, stage)
    ensures if stage.Keyed? then Find(db.w.db.registry, triple) == Some(Some(stage.key))
            else stage.Issuing? && !stage.seeded && NoKeyYet(db.w.db, triple, stage.backfill)
  {
    db.Interfere(me, triple, rows, Opened);
    db.Do(Lookup(me));
    stage := db.w.txs[me].stage;
  }

  // Puts the key on the file's registry row, or registers the file with it; the UPDATE of a row does not bind in every dialect.
  method RegisterKey(db: Database, me: nat, triple: Triple, rows: Rows, backfill: bool, key: int) returns (ok: bool)
    requires db.Writing(me, triple, rows, Issued(backfill, key))
    modifies db`w, db`refused
    ensures if ok then db.Writing(me, triple, rows, Keyed(key)) else db.Untouched(triple)
    ensures (old(db.refused) ==> db.refused) && (!ok ==> db.refused || (backfill && db.cfg.bindsByNumber))
    ensures backfill && db.cfg.bindsByNumber ==> !ok
  {
    db.Interfere(me, triple, rows, Issued(backfill, key));
    if !Enabled(db.cfg, db.w, Register(me)) {
      db.refused := true;
      return false;
    }
    UniqueIndexNeverFires(db.cfg, db.w, me);
    BackfillBinds(db.cfg);
    assert TxRows(db.cfg, db.w.db, db.w.txs[me]);
    ok := AfterRegister(db.cfg, db.w.db, db.w.txs[me]).Some?;
    db.Do(Register(me));
  }

  /**
   The file's key: its own if it has one; otherwise the next one, put on its registry row or registered with a new row. Without a
   refusal it is there exactly when the file's row is absent or keyed, or the dialect binds by position. Where the insert is a
   MERGE the key is read back, which changes nothing while the file is written by one transaction.
   */
  method ResolveFileKey(db: Database, me: nat, triple: Triple, rows: Rows) returns (key: Option<int>)
    requires db.Writing(me, triple, rows, Opened)
    modifies db`w, db`refused
    ensures if key.Some? then db.Writing(me, triple, rows, Keyed(key.value)) else db.Untouched(triple)
    ensures (key.None? ==> db.refused || Unfillable(db.cfg, db.origin.db, triple)) && (old(db.refused) ==> db.refused)
    ensures Unfillable(db.cfg, db.origin.db, triple) ==> key.None?
    ensures db.calm ==> (key.Some? <==> !Unfillable(db.cfg, db.origin.db, triple))
    ensures var found := Find(db.origin.db.registry, triple); found.Some? && found.value.Some? ==> key == found.value
  {
    var stage := LookUp(db, me, triple, rows);
    if stage.Keyed? {
      return Some(stage.key);
    }
    key := NextFileKey(db, me, triple, rows, stage.backfill);
    if key.Some? {
      var ok := RegisterKey(db, me, triple, rows, stage.backfill, key.value);
      if !ok {
        return None;
      }
    }
  }

  lemma FirstRowGrows(rows: Rows, i: nat, n: int)
    requires i < |rows|
    ensures n in Numbers(rows[..i + 1]) <==> n in Numbers(rows[..i]) || n == rows[i].0
    ensures n in Numbers(rows[..i]) ==> FirstRow(rows[..i + 1], n) == FirstRow(rows[..i], n)
    ensures n == rows[i].0 && n !in Numbers(rows[..i]) ==> FirstRow(rows[..i + 1], n) == rows[i].1
    decreases i
  {
    var a, b := rows[..i], rows[..i + 1];
    if n in Numbers(a) {
      var j :| 0 <= j < i && a[j].0 == n;
      assert b[j].0 == n;
    }
    if n == rows[i].0 { assert b[i].0 == n; }
    if n in Numbers(b) {
      var j :| 0 <= j < i + 1 && b[j].0 == n;
      assert j < i ==> a[j].0 == n;
      if i > 0 {
        assert a[1..] == rows[1..][..i - 1] && b[1..] == rows[1..][..i];
        FirstRowGrows(rows[1..], i - 1, n);
      }
    }
  }

  /** Inserts the rows one by one; a row whose key and number are taken is not inserted. */
  method NewRowsOf(data: map<(int, int), Cells>, rows: Rows, key: int) returns (mine: map<(int, int), Cells>)
    ensures mine == NewRows(data, rows, key)
  {
    mine := map[];
    for i := 0 to |rows|
      invariant mine == NewRows(data, rows[..i], key)
    {
      ghost var before := mine;
      var n := rows[i].0;
      if (key, n) !in data && (key, n) !in mine {
        mine := mine[(key, n) := rows[i].1];
      }
      NewRowsStep(data, rows, key, i);
    }
    assert rows[..|rows|] == rows;
  }

  lemma NewRowsStep(data: map<(int, int), Cells>, rows: Rows, key: int, i: nat)
    requires i < |rows|
    ensures var before, n := NewRows(data, rows[..i], key), rows[i].0;
            NewRows(data, rows[..i + 1], key)
            == if (key, n) !in data && (key, n) !in before then before[(key, n) := rows[i].1] else before
  {
    var before, after := NewRows(data, rows[..i], key), NewRows(data, rows[..i + 1], key);
    forall x ensures x in after <==> x in before || (x == (key, rows[i].0) && x !in data) {
      NewRowsHas(data, rows[..i], key, x.0, x.1);
      NewRowsHas(data, rows[..i + 1], key, x.0, x.1);
      FirstRowGrows(rows, i, x.1);
      assert x == (x.0, x.1);
    }
    forall x | x in after ensures after[x] == if x in before then before[x] else rows[i].1 {
      NewRowsHas(data, rows[..i], key, x.0, x.1);
      NewRowsHas(data, rows[..i + 1], key, x.0, x.1);
      FirstRowGrows(rows, i, x.1);
      assert x == (x.0, x.1);
    }
  }

  // The row of a file and number after its rows were written: first come, first kept.
  function StoredRow(before: DB, t: Triple, rows: Rows, n: int): Option<Cells> {
    if (t, n) in before.legacy then Some(before.legacy[(t, n)]) else if n in Numbers(rows) then Some(FirstRow(rows, n)) else None
  }

  // What the join shows of a file after its rows were written to the tables as they were before.
  ghost predicate ShowsWrite(before: DB, after: DB, t: Triple, rows: Rows) {
    forall n :: Seen(after, t, n) == StoredRow(before, t, rows, n)
  }

  /**
   One batch in one transaction. Success means that by the join the file has the rows it had and those of the batch, each as it
   came first; failure, that the file has the rows it had. It fails only on a cancelled context, a record that cannot be mapped, a
   registry row that cannot be backfilled, more binds than the database takes, a lock not granted in time or a refused commit; in
   a calm database not on the last two. What else changed is what others did. `mapped`: every record can be mapped to a row of
   so many `columns`.
   */
  method Write(db: Database, me: nat, cancelled: bool, triple: Triple, rows: Rows, mapped: bool, columns: nat)
    returns (ok: bool)
    requires db.Valid() && me !in db.w.txs
    requires forall t :: t in db.w.txs ==> db.w.txs[t].triple != triple
    modifies db
    ensures db.Valid() && me !in db.w.txs && Reaches(db.cfg, old(db.w), db.w)
    ensures ShowsWrite(old(db.w.db), db.w.db, triple, if ok then rows else [])
    ensures !ok ==> cancelled || Hopeless(db, old(db.w.db), triple, rows, mapped, columns) || db.refused
    ensures ok && rows != [] ==> !cancelled && !Hopeless(db, old(db.w.db), triple, rows, mapped, columns)
    ensures db.calm && rows != [] ==> (ok <==> !cancelled && !Hopeless(db, old(db.w.db), triple, rows, mapped, columns))
    ensures Join(db.w.db) == LegacyRows(db.w.db)
  {
    db.refused, db.origin := false, db.w;
    ReachNothing(db.cfg, db.w);
    JoinIsLegacy(db.w.db);
    NothingWritten(db.w.db, db.w.db, triple);
    if rows == [] {
      return true;
    }
    if cancelled {
      return false;
    }
    db.Do(Open(me, triple, rows));
    ok := WriteOpened(db, me, triple, rows, mapped, columns);
    if !ok {
      Undo(db, me);
      NothingWritten(db.origin.db, db.w.db, triple);
    }
    JoinIsLegacy(db.w.db);
  }

  lemma NothingWritten(before: DB, after: DB, t: Triple)
    requires DBSound(after) && SameFile(before, after, t)
    ensures ShowsWrite(before, after, t, [])
  {
    forall n ensures Seen(after, t, n) == StoredRow(before, t, [], n) {
      assert Seen(after, t, n) == Find(after.legacy, (t, n));
      assert Find(before.legacy, (t, n)) == Find(after.legacy, (t, n));
    }
  }

  // The batch is refused on every try.
  predicate Hopeless(db: Database, before: DB, triple: Triple, rows: Rows, mapped: bool, columns: nat) {
    !mapped || Unfillable(db.cfg, before, triple) || !Fits(db.dialect, |rows|, columns)
  }

  method WriteOpened(db: Database, me: nat, triple: Triple, rows: Rows, mapped: bool, columns: nat) returns (ok: bool)
    requires db.Writing(me, triple, rows, Opened)
    modifies db`w, db`refused
    ensures if ok then db.Valid() && me !in db.w.txs && ShowsWrite(db.origin.db, db.w.db, triple, rows) else db.Untouched(triple)
    ensures !ok ==> Hopeless(db, db.origin.db, triple, rows, mapped, columns) || db.refused
    ensures ok ==> !Hopeless(db, db.origin.db, triple, rows, mapped, columns)
  {
    var key := ResolveFileKey(db, me, triple, rows);
    if key.None? || !mapped || !Fits(db.dialect, |rows|, columns) {
      return false;
    }
    InsertAll(db, me, triple, rows, key.value);
    ok := CommitRows(db, me, triple, rows, key.value);
  }

  method InsertAll(db: Database, me: nat, triple: Triple, rows: Rows, key: int)
    requires db.Writing(me, triple, rows, Keyed(key))
    modifies db`w
    ensures db.Writing(me, triple, rows, Written(key))
  {
    db.Interfere(me, triple, rows, Keyed(key));
    var mine := NewRowsOf(db.w.db.data, rows, key);
    InsertNeverWaits(db.cfg, db.w, me);
    db.Do(InsertRows(me));
    assert db.w.txs[me].data == mine;
  }

  method CommitRows(db: Database, me: nat, triple: Triple, rows: Rows, key: int) returns (ok: bool)
    requires db.Writing(me, triple, rows, Written(key))
    modifies db`w, db`refused
    ensures if ok then db.Valid() && me !in db.w.txs && ShowsWrite(db.origin.db, db.w.db, triple, rows) else db.Untouched(triple)
    ensures db.refused == (old(db.refused) || !ok)
  {
    db.Interfere(me, triple, rows, Written(key));
    ok := *;
    ok := ok || db.calm;
    if ok {
      ghost var before, x := db.w.db, db.w.txs[me];
      db.Do(Commit(me));
      assert db.w.db == Committed(before, x);
      CommitShows(db.origin.db, before, x);
    } else {
      db.refused := true;
    }
  }

  // A commit adds the batch to the rows the file has had since the write began.
  lemma CommitShows(origin: DB, before: DB, x: Tx)
    requires SameFile(origin, before, x.triple) && SameRows(Committed(before, x))
    ensures ShowsWrite(origin, Committed(before, x), x.triple, x.rows)
  {
    var after := Committed(before, x);
    forall n ensures Seen(after, x.triple, n) == StoredRow(origin, x.triple, x.rows, n) {
      NewLegacyRowsHas(before.legacy, x.rows, x.triple, x.triple, n);
      assert Find(origin.legacy, (x.triple, n)) == Find(before.legacy, (x.triple, n));
      assert Seen(after, x.triple, n) == Find(after.legacy, (x.triple, n));
    }
  }
}
