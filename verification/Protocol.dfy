/**
 The collection protocol as a state machine. One unit works on one collection at a time; any step may fail to be saved, any
 step may be the last before the process dies, and the next process starts from what was saved last.
 */
module Protocol {
  import opened Wrappers
  import opened Model
  import opened State
  import opened Snapshots
  import opened Storage

  // What parsing a file yields: its rows, after which it ends or turns out malformed.
  datatype Content = Content(header: seq<string>, rows: seq<seq<string>>, bad: bool)

  // The content of a file is a function of its identity text.
  datatype Config = Config(parse: string -> Content, appendMode: bool)

  const LEASE: Time := 24 * 3600 * 1000000000

  // A file being collected: so many of its rows have been written.
  datatype Job = Job(file: FileIdentity, sent: nat)

  datatype World = World(mem: Ledger, disk: Ledger, store: Tables, active: Option<CollectionKey>, jobs: map<nat, Job>)

  const START := World(EMPTY, EMPTY, map[], None, map[])

  datatype Event =
    | Begin(key: CollectionKey, now: Time, saved: bool)
    | End(key: CollectionKey, status: Status, note: string, now: Time, saved: bool)
    | Abandon                       // the end of the active collection was refused: the context is cancelled
    | Drop(key: CollectionKey, saved: bool)
    | StartFile(job: nat, file: FileIdentity)
    | WriteBatch(job: nat, batch: Batch)
    | MarkCompleted(job: nat, now: Time, saved: bool)
    | MarkFailed(file: FileIdentity, error: string, now: Time, saved: bool)
    | FinishJob(job: nat)
    | Resave(saved: bool)           // the state is saved without having changed
    | Crash

  function Records(c: Content): seq<Record> {
    seq(|c.rows|, i requires 0 <= i < |c.rows| => Record(i + 1, c.rows[i]))
  }

  function ContentOf(cfg: Config, file: FileIdentity): Content {
    cfg.parse(Identity(file))
  }

  predicate IsNextBatch(cfg: Config, w: World, job: nat, batch: Batch)
    requires job in w.jobs
  {
    var j := w.jobs[job];
    var records := Records(ContentOf(cfg, j.file));
    && batch.file == j.file && w.active == Some(batch.key) && batch.header == ContentOf(cfg, j.file).header
    && j.sent + |batch.records| <= |records|
    && batch.records == records[j.sent..j.sent + |batch.records|]
  }

  predicate Enabled(cfg: Config, w: World, e: Event) {
    match e
    case Begin(key, now, _) => w.active.None? && MayBegin(w.mem, key, now, LEASE, cfg.appendMode)
    case End(key, status, _, _, _) => w.active == Some(key) && w.jobs == map[] && status in {Succeeded, Failed}
    case Abandon => w.active.Some? && w.jobs == map[]
    case Drop(key, _) => w.active.None?
    case StartFile(job, file) =>
      w.active.Some? && job !in w.jobs && file.source == w.active.value.source && !IsCompleted(w.mem, w.active.value, file)
    case WriteBatch(job, batch) => job in w.jobs && IsNextBatch(cfg, w, job, batch)
    case MarkCompleted(job, _, _) =>
      && job in w.jobs && w.active.Some?
      && !ContentOf(cfg, w.jobs[job].file).bad && w.jobs[job].sent == |ContentOf(cfg, w.jobs[job].file).rows|
    case MarkFailed(file, _, _, _) => w.active.Some? && file.source == w.active.value.source
    case FinishJob(job) => job in w.jobs
    case Resave(_) => true
    case Crash => true
  }

  // The state after a mutation of the ledger: the save that follows it may fail.
  function Saving(w: World, mem: Ledger, saved: bool): World {
    w.(mem := mem, disk := if saved then Compact(mem) else w.disk)
  }

  function Apply(cfg: Config, w: World, e: Event): World {
    match e
    // A begin that could not be saved is reported as a failure: the record runs, but nothing is collected.
    case Begin(key, now, saved) => Saving(w, Begun(w.mem, key, now), saved).(active := if saved then Some(key) else None)
    case End(key, status, note, now, saved) =>
      if key !in w.mem.collections then w else Saving(w, Ended(w.mem, key, status, note, now), saved).(active := None)
    case Abandon => w.(active := None)
    case Drop(key, saved) => Saving(w, Dropped(w.mem, key), saved)
    case StartFile(job, file) => w.(jobs := w.jobs[job := Job(file, 0)])
    case WriteBatch(job, batch) =>
      if job !in w.jobs then w
      else w.(store := StoreBatch(w.store, batch), jobs := w.jobs[job := w.jobs[job].(sent := w.jobs[job].sent + |batch.records|)])
    case MarkCompleted(job, now, saved) =>
      if job !in w.jobs || w.active.None? then w
      else Saving(w, Completed(w.mem, w.active.value, w.jobs[job].file, w.jobs[job].sent, now), saved)
    case MarkFailed(file, error, now, saved) =>
      if w.active.None? then w else Saving(w, FileFailed(w.mem, w.active.value, file, error, now), saved)
    case FinishJob(job) => w.(jobs := w.jobs - {job})
    case Resave(saved) => Saving(w, w.mem, saved)
    case Crash => World(Migrated(w.disk), if Migrated(w.disk) == w.disk then w.disk else Compact(Migrated(w.disk)), w.store, None, map[])
  }

  predicate Legal(cfg: Config, w: World, es: seq<Event>)
    decreases |es|
  {
    es == [] || (Enabled(cfg, w, es[0]) && Legal(cfg, Apply(cfg, w, es[0]), es[1..]))
  }

  function Final(cfg: Config, w: World, es: seq<Event>): World
    decreases |es|
  {
    if es == [] then w else Final(cfg, Apply(cfg, w, es[0]), es[1..])
  }

  // `w'` can be reached from `w`.
  ghost predicate Runs(cfg: Config, w: World, w': World) {
    exists es :: Legal(cfg, w, es) && Final(cfg, w, es) == w'
  }

  lemma {:induction false} RunAppend(cfg: Config, w: World, es: seq<Event>, e: Event)
    requires Legal(cfg, w, es) && Enabled(cfg, Final(cfg, w, es), e)
    ensures Legal(cfg, w, es + [e]) && Final(cfg, w, es + [e]) == Apply(cfg, Final(cfg, w, es), e)
    decreases |es|
  {
    if es != [] {
      RunAppend(cfg, Apply(cfg, w, es[0]), es[1..], e);
      assert (es + [e])[1..] == es[1..] + [e];
    }
  }

  lemma RunStep(cfg: Config, w: World, w': World, e: Event)
    requires Runs(cfg, w, w') && Enabled(cfg, w', e)
    ensures Runs(cfg, w, Apply(cfg, w', e))
  {
    var es :| Legal(cfg, w, es) && Final(cfg, w, es) == w';
    RunAppend(cfg, w, es, e);
  }

  lemma RunNothing(cfg: Config, w: World)
    ensures Runs(cfg, w, w)
  {
    assert Legal(cfg, w, []) && Final(cfg, w, []) == w;
  }

  // ---------------------------------------------------------------- what every step keeps

  // A stored row is a record of its file's content.
  predicate Conforms(cfg: Config, id: string, r: StoredRow) {
    var c := cfg.parse(id);
    && Identity(r.file) == id && r.header == c.header
    && 1 <= r.record.rowNumber <= |c.rows| && r.record.fields == c.rows[r.record.rowNumber - 1]
  }

  ghost predicate RowsConform(cfg: Config, t: Tables) {
    && (forall id, i :: id in t && 0 <= i < |t[id]| ==> Conforms(cfg, id, t[id][i]))
    && (forall id {:trigger RowsOf(t, id)} :: DistinctNumbers(RowsOf(t, id)))
  }

  // The first `n` rows of the file are stored.
  ghost predicate HasFirst(t: Tables, id: string, n: int) {
    forall m :: 1 <= m <= n ==> HasNumber(RowsOf(t, id), m)
  }

  // Every file marked done is well formed, fully stored, and its row count is right.
  ghost predicate DoneMeansStored(cfg: Config, t: Tables, l: Ledger) {
    forall k, id :: k in l.files && id in l.files[k] ==> FullyStored(cfg, t, id, l.files[k][id].records)
  }

  ghost predicate FullyStored(cfg: Config, t: Tables, id: string, records: int) {
    !cfg.parse(id).bad && records == |cfg.parse(id).rows| && HasFirst(t, id, records)
  }

  ghost predicate JobsSent(cfg: Config, w: World) {
    w.jobs == map[] || (w.active.Some? && forall j :: j in w.jobs ==> JobSent(cfg, w, w.jobs[j]))
  }

  ghost predicate JobSent(cfg: Config, w: World, job: Job)
    requires w.active.Some?
  {
    && job.file.source == w.active.value.source
    && job.sent <= |ContentOf(cfg, job.file).rows| && HasFirst(w.store, Identity(job.file), job.sent)
  }

  /** What holds of a ledger: no leftover status, entries only under recorded keys, failures only on unfinished ones. */
  ghost predicate LedgerSound(l: Ledger) {
    && KeysAgree(l)
    && (forall k :: k in l.collections ==> l.collections[k].status in {Running, Succeeded, Failed})
    && (forall k :: k in l.files || k in l.failedFiles ==> k in l.collections)
    && (forall k :: k in l.collections && Inner(l.failedFiles, k) != map[] ==> l.collections[k].status in {Running, Failed})
  }

  ghost predicate Inv(cfg: Config, w: World) {
    && LedgerSound(w.mem) && LedgerSound(w.disk)
    && DoneMeansStored(cfg, w.store, w.mem) && DoneMeansStored(cfg, w.store, w.disk)
    && RowsConform(cfg, w.store)
    && JobsSent(cfg, w)
    && (w.active.Some? ==> w.active.value in w.mem.collections && w.mem.collections[w.active.value].status == Running)
  }

  lemma StartIsSound(cfg: Config)
    ensures Inv(cfg, START)
  {
  }

  // Ledger by ledger.

  lemma BeginSound(l: Ledger, key: CollectionKey, now: Time)
    requires LedgerSound(l)
    ensures LedgerSound(Begun(l, key, now))
  {
  }

  lemma EndSound(l: Ledger, key: CollectionKey, status: Status, note: string, now: Time)
    requires LedgerSound(l) && key in l.collections && status in {Succeeded, Failed}
    ensures LedgerSound(Ended(l, key, status, note, now))
  {
    EndAgrees(l, key, status, note, now);
    var l' := Ended(l, key, status, note, now);
    forall k | k in l'.collections && Inner(l'.failedFiles, k) != map[] ensures l'.collections[k].status in {Running, Failed} {
      assert Inner(l.failedFiles, k) != map[];
    }
  }

  lemma DropSound(l: Ledger, key: CollectionKey)
    requires LedgerSound(l)
    ensures LedgerSound(Dropped(l, key))
  {
  }

  lemma CompletedSound(l: Ledger, key: CollectionKey, file: FileIdentity, records: int, now: Time)
    requires LedgerSound(l) && key in l.collections && file.source == key.source
    ensures LedgerSound(Completed(l, key, file, records, now))
  {
    CompletedAgrees(l, key, file, records, now);
    var l' := Completed(l, key, file, records, now);
    forall k | k in l'.collections && Inner(l'.failedFiles, k) != map[] ensures l'.collections[k].status in {Running, Failed} {
      assert Inner(l.failedFiles, k) != map[];
    }
  }

  lemma FailedSound(l: Ledger, key: CollectionKey, file: FileIdentity, error: string, now: Time)
    requires LedgerSound(l) && key in l.collections && l.collections[key].status == Running && file.source == key.source
    ensures LedgerSound(FileFailed(l, key, file, error, now))
  {
    FailedAgrees(l, key, file, error, now);
    var l' := FileFailed(l, key, file, error, now);
    forall k | k in l'.collections && Inner(l'.failedFiles, k) != map[] ensures l'.collections[k].status in {Running, Failed} {
      assert k == key || Inner(l.failedFiles, k) != map[];
    }
  }

  lemma CompactSound(l: Ledger)
    requires LedgerSound(l)
    ensures LedgerSound(Compact(l))
  {
  }

  /** Records written by this version need no migration: a restart reads exactly what was saved. */
  lemma NothingToMigrate(l: Ledger)
    requires LedgerSound(l)
    ensures Migrated(l) == l
  {
    MigratedIffSettled(l);
  }

  // ---------------------------------------------------------------- the rows

  lemma HasFirstGrows(t: Tables, batch: Batch, id: string, n: int)
    requires HasFirst(t, id, n) && DistinctNumbers(RowsOf(t, Identity(batch.file)))
    ensures HasFirst(StoreBatch(t, batch), id, n)
  {
    if Identity(batch.file) != id {
      assert RowsOf(StoreBatch(t, batch), id) == RowsOf(t, id);
    } else {
      var rows := RowsOf(t, id);
      StoredOnce(rows, batch, |batch.records|);
      var after := RowsOf(StoreBatch(t, batch), id);
      forall m | 1 <= m <= n ensures HasNumber(after, m) {
        assert HasNumber(rows, m);
        var i :| 0 <= i < |rows| && rows[i].record.rowNumber == m;
        assert after[i].record.rowNumber == m;
      }
    }
  }

  lemma DoneStaysStored(cfg: Config, t: Tables, l: Ledger, batch: Batch)
    requires DoneMeansStored(cfg, t, l) && DistinctNumbers(RowsOf(t, Identity(batch.file)))
    ensures DoneMeansStored(cfg, StoreBatch(t, batch), l)
  {
    forall k, id | k in l.files && id in l.files[k] ensures FullyStored(cfg, StoreBatch(t, batch), id, l.files[k][id].records) {
      assert FullyStored(cfg, t, id, l.files[k][id].records);
      HasFirstGrows(t, batch, id, l.files[k][id].records);
    }
  }

  lemma WriteConforms(cfg: Config, w: World, job: nat, batch: Batch)
    requires RowsConform(cfg, w.store) && job in w.jobs && IsNextBatch(cfg, w, job, batch)
    ensures RowsConform(cfg, StoreBatch(w.store, batch))
  {
    var id := Identity(batch.file);
    var rows, t' := RowsOf(w.store, id), StoreBatch(w.store, batch);
    StoredOnce(rows, batch, |batch.records|);
    forall k, i | k in t' && 0 <= i < |t'[k]| ensures Conforms(cfg, k, t'[k][i]) {
      if k == id && batch.records != [] {
        assert t'[k][i] in Stored(rows, batch, |batch.records|);
        assert ComesFrom(rows, batch, |batch.records|, t'[k][i]);
        if t'[k][i] in rows {
          var i' :| 0 <= i' < |rows| && rows[i'] == t'[k][i];
          assert Conforms(cfg, id, w.store[id][i']);
        }
      }
    }
    forall k ensures DistinctNumbers(RowsOf(t', k)) {
      assert DistinctNumbers(RowsOf(w.store, k));
    }
  }

  lemma WriteAdvances(cfg: Config, w: World, job: nat, batch: Batch)
    requires RowsConform(cfg, w.store) && JobsSent(cfg, w) && job in w.jobs && IsNextBatch(cfg, w, job, batch)
    ensures HasFirst(StoreBatch(w.store, batch), Identity(batch.file), w.jobs[job].sent + |batch.records|)
  {
    var id, sent := Identity(batch.file), w.jobs[job].sent;
    assert JobSent(cfg, w, w.jobs[job]);
    HasFirstGrows(w.store, batch, id, sent);
    StoredOnce(RowsOf(w.store, id), batch, |batch.records|);
    forall m | 1 <= m <= sent + |batch.records| ensures HasNumber(RowsOf(StoreBatch(w.store, batch), id), m) {
      if m > sent {
        assert batch.records[m - 1 - sent].rowNumber == m;
      }
    }
  }

  // ---------------------------------------------------------------- step by step

  lemma SavingKeepsInv(cfg: Config, w: World, mem: Ledger, saved: bool)
    requires Inv(cfg, w) && LedgerSound(mem) && DoneMeansStored(cfg, w.store, mem)
    ensures LedgerSound(Saving(w, mem, saved).disk) && DoneMeansStored(cfg, w.store, Saving(w, mem, saved).disk)
  {
    CompactSound(mem);
  }

  lemma WriteKeepsInv(cfg: Config, w: World, job: nat, batch: Batch)
    requires Inv(cfg, w) && Enabled(cfg, w, WriteBatch(job, batch))
    ensures Inv(cfg, Apply(cfg, w, WriteBatch(job, batch)))
  {
    var w' := Apply(cfg, w, WriteBatch(job, batch));
    assert DistinctNumbers(RowsOf(w.store, Identity(batch.file)));
    DoneStaysStored(cfg, w.store, w.mem, batch);
    DoneStaysStored(cfg, w.store, w.disk, batch);
    WriteConforms(cfg, w, job, batch);
    WriteAdvances(cfg, w, job, batch);
    forall j | j in w'.jobs ensures JobSent(cfg, w', w'.jobs[j]) {
      assert JobSent(cfg, w, w.jobs[j]);
      if j != job { HasFirstGrows(w.store, batch, Identity(w.jobs[j].file), w.jobs[j].sent); }
    }
  }

  lemma MarkCompletedKeepsInv(cfg: Config, w: World, job: nat, now: Time, saved: bool)
    requires Inv(cfg, w) && Enabled(cfg, w, MarkCompleted(job, now, saved))
    ensures Inv(cfg, Apply(cfg, w, MarkCompleted(job, now, saved)))
  {
    var key, j := w.active.value, w.jobs[job];
    assert JobSent(cfg, w, j);
    var mem := Completed(w.mem, key, j.file, j.sent, now);
    CompletedSound(w.mem, key, j.file, j.sent, now);
    forall k, id | k in mem.files && id in mem.files[k] ensures FullyStored(cfg, w.store, id, mem.files[k][id].records) {
      if k == key && id == Identity(j.file) {
        assert HasFirst(w.store, id, j.sent);
      } else {
        assert k in w.mem.files && id in w.mem.files[k] && mem.files[k][id] == w.mem.files[k][id];
      }
    }
    SavingKeepsInv(cfg, w, mem, saved);
    assert forall j :: j in w.jobs ==> JobSent(cfg, w, w.jobs[j]);
  }

  lemma MarkFailedKeepsInv(cfg: Config, w: World, file: FileIdentity, error: string, now: Time, saved: bool)
    requires Inv(cfg, w) && Enabled(cfg, w, MarkFailed(file, error, now, saved))
    ensures Inv(cfg, Apply(cfg, w, MarkFailed(file, error, now, saved)))
  {
    FailedSound(w.mem, w.active.value, file, error, now);
    SavingKeepsInv(cfg, w, FileFailed(w.mem, w.active.value, file, error, now), saved);
    assert forall j :: j in w.jobs ==> JobSent(cfg, w, w.jobs[j]);
  }

  lemma BeginKeepsInv(cfg: Config, w: World, key: CollectionKey, now: Time, saved: bool)
    requires Inv(cfg, w) && Enabled(cfg, w, Begin(key, now, saved))
    ensures Inv(cfg, Apply(cfg, w, Begin(key, now, saved)))
  {
    BeginSound(w.mem, key, now);
    SavingKeepsInv(cfg, w, Begun(w.mem, key, now), saved);
  }

  lemma EndKeepsInv(cfg: Config, w: World, key: CollectionKey, status: Status, note: string, now: Time, saved: bool)
    requires Inv(cfg, w) && Enabled(cfg, w, End(key, status, note, now, saved))
    ensures Inv(cfg, Apply(cfg, w, End(key, status, note, now, saved)))
  {
    EndSound(w.mem, key, status, note, now);
    SavingKeepsInv(cfg, w, Ended(w.mem, key, status, note, now), saved);
  }

  lemma DropKeepsInv(cfg: Config, w: World, key: CollectionKey, saved: bool)
    requires Inv(cfg, w) && Enabled(cfg, w, Drop(key, saved))
    ensures Inv(cfg, Apply(cfg, w, Drop(key, saved)))
  {
    DropSound(w.mem, key);
    SavingKeepsInv(cfg, w, Dropped(w.mem, key), saved);
  }

  /** Every step keeps the invariant. */
  lemma StepKeepsInv(cfg: Config, w: World, e: Event)
    requires Inv(cfg, w) && Enabled(cfg, w, e)
    ensures Inv(cfg, Apply(cfg, w, e))
  {
    match e
    case Begin(key, now, saved) => BeginKeepsInv(cfg, w, key, now, saved);
    case End(key, status, note, now, saved) => EndKeepsInv(cfg, w, key, status, note, now, saved);
    case Abandon =>
    case Drop(key, saved) => DropKeepsInv(cfg, w, key, saved);
    case StartFile(job, file) =>
      assert forall j :: j in w.jobs ==> JobSent(cfg, w, w.jobs[j]);
    case WriteBatch(job, batch) => WriteKeepsInv(cfg, w, job, batch);
    case MarkCompleted(job, now, saved) => MarkCompletedKeepsInv(cfg, w, job, now, saved);
    case MarkFailed(file, error, now, saved) => MarkFailedKeepsInv(cfg, w, file, error, now, saved);
    case FinishJob(job) => assert forall j :: j in w.jobs ==> JobSent(cfg, w, w.jobs[j]);
    case Resave(saved) => SavingKeepsInv(cfg, w, w.mem, saved);
    case Crash => NothingToMigrate(w.disk);
  }

  /** The invariant holds after every run. */
  lemma {:induction false} RunKeepsInv(cfg: Config, w: World, es: seq<Event>)
    requires Inv(cfg, w) && Legal(cfg, w, es)
    ensures Inv(cfg, Final(cfg, w, es))
    decreases |es|
  {
    if es != [] {
      StepKeepsInv(cfg, w, es[0]);
      RunKeepsInv(cfg, Apply(cfg, w, es[0]), es[1..]);
    }
  }

  // ---------------------------------------------------------------- exactly once

  function RecordsIn(rows: seq<StoredRow>): seq<Record> {
    seq(|rows|, i requires 0 <= i < |rows| => rows[i].record)
  }

  lemma {:induction false} AtMostOnce(s: seq<Record>)
    requires forall i, j :: 0 <= i < j < |s| ==> s[i] != s[j]
    ensures forall x :: multiset(s)[x] <= 1
  {
    if s != [] {
      var init, last := s[..|s| - 1], s[|s| - 1];
      assert s == init + [last];
      AtMostOnce(init);
      assert last !in init;
    }
  }

  lemma DistinctWithin(s: seq<Record>, c: seq<Record>)
    requires forall i, j :: 0 <= i < j < |s| ==> s[i] != s[j]
    requires forall x :: x in s ==> x in c
    ensures multiset(s) <= multiset(c)
  {
    AtMostOnce(s);
    forall x ensures multiset(s)[x] <= multiset(c)[x] {
      if x in s { assert x in multiset(c); }
    }
  }

  /**
   Exactly once: after any run, whatever failed to be written or saved and however often the process died, a file that is
   marked done, in memory or on disk, has each of its records in exactly one row, and no row besides.
   */
  lemma ExactlyOnce(cfg: Config, es: seq<Event>, k: CollectionKey, id: string)
    requires Legal(cfg, START, es)
    ensures var w := Final(cfg, START, es);
            (k in w.mem.files && id in w.mem.files[k]) || (k in w.disk.files && id in w.disk.files[k]) ==>
              !cfg.parse(id).bad && multiset(RecordsIn(RowsOf(w.store, id))) == multiset(Records(cfg.parse(id)))
  {
    var w := Final(cfg, START, es);
    StartIsSound(cfg);
    RunKeepsInv(cfg, START, es);
    if (k in w.mem.files && id in w.mem.files[k]) || (k in w.disk.files && id in w.disk.files[k]) {
      assert FullyStored(cfg, w.store, id, |cfg.parse(id).rows|);
      StoredIsRecords(cfg, w.store, id);
    }
  }

  /** So it is in every sound world: a marked file has exactly its records stored. */
  lemma MarkedIsStored(cfg: Config, w: World, key: CollectionKey, file: FileIdentity)
    requires Inv(cfg, w) && IsCompleted(w.mem, key, file)
    ensures !ContentOf(cfg, file).bad
    ensures multiset(RecordsIn(RowsOf(w.store, Identity(file)))) == multiset(Records(ContentOf(cfg, file)))
  {
    var id := Identity(file);
    assert key in w.mem.files && id in w.mem.files[key];
    assert FullyStored(cfg, w.store, id, w.mem.files[key][id].records);
    StoredIsRecords(cfg, w.store, id);
  }

  /** At any time the rows of a file are some of its records, none of them twice, even while it is only partly collected. */
  lemma NeverTwice(cfg: Config, es: seq<Event>, id: string)
    requires Legal(cfg, START, es)
    ensures multiset(RecordsIn(RowsOf(Final(cfg, START, es).store, id))) <= multiset(Records(cfg.parse(id)))
  {
    StartIsSound(cfg);
    RunKeepsInv(cfg, START, es);
    StoredAreRecords(cfg, Final(cfg, START, es).store, id);
  }

  lemma StoredAreRecords(cfg: Config, t: Tables, id: string)
    requires RowsConform(cfg, t)
    ensures multiset(RecordsIn(RowsOf(t, id))) <= multiset(Records(cfg.parse(id)))
  {
    var s, c := RecordsIn(RowsOf(t, id)), Records(cfg.parse(id));
    forall x | x in s ensures x in c {
      var i :| 0 <= i < |s| && s[i] == x;
      assert Conforms(cfg, id, t[id][i]);
      assert c[x.rowNumber - 1] == x;
    }
    DistinctWithin(s, c);
  }

  lemma StoredIsRecords(cfg: Config, t: Tables, id: string)
    requires RowsConform(cfg, t) && HasFirst(t, id, |cfg.parse(id).rows|)
    ensures multiset(RecordsIn(RowsOf(t, id))) == multiset(Records(cfg.parse(id)))
  {
    var rows, s, c := RowsOf(t, id), RecordsIn(RowsOf(t, id)), Records(cfg.parse(id));
    StoredAreRecords(cfg, t, id);
    forall x | x in c ensures x in s {
      assert HasNumber(rows, x.rowNumber);
      var i :| 0 <= i < |rows| && rows[i].record.rowNumber == x.rowNumber;
      assert Conforms(cfg, id, t[id][i]) && s[i] == x;
    }
    DistinctWithin(c, s);
  }

  lemma RowsStayStep(cfg: Config, w: World, e: Event, id: string)
    requires RowsConform(cfg, w.store)
    ensures RowsOf(w.store, id) <= RowsOf(Apply(cfg, w, e).store, id)
  {
    if e.WriteBatch? {
      assert DistinctNumbers(RowsOf(w.store, Identity(e.batch.file)));
      StoredOnce(RowsOf(w.store, Identity(e.batch.file)), e.batch, |e.batch.records|);
    }
  }

  /** No step removes or changes a stored row. */
  lemma {:induction false} RowsStay(cfg: Config, w: World, es: seq<Event>, id: string)
    requires Inv(cfg, w) && Legal(cfg, w, es)
    ensures RowsOf(w.store, id) <= RowsOf(Final(cfg, w, es).store, id)
    decreases |es|
  {
    if es != [] {
      StepKeepsInv(cfg, w, es[0]);
      RowsStayStep(cfg, w, es[0], id);
      RowsStay(cfg, Apply(cfg, w, es[0]), es[1..], id);
    }
  }

  /** The ledger after any run: what a key's entries say about its record. */
  lemma LedgerAlwaysSound(cfg: Config, es: seq<Event>)
    requires Legal(cfg, START, es)
    ensures LedgerSound(Final(cfg, START, es).mem) && LedgerSound(Final(cfg, START, es).disk)
    ensures Migrated(Final(cfg, START, es).disk) == Final(cfg, START, es).disk
  {
    StartIsSound(cfg);
    RunKeepsInv(cfg, START, es);
    NothingToMigrate(Final(cfg, START, es).disk);
  }

  // ---------------------------------------------------------------- leases

  predicate IsDone(l: Ledger, key: CollectionKey) {
    key in l.collections && l.collections[key].status == Succeeded
  }

  // The ledger itself refuses grants before a lease from `since` is over.
  predicate Guards(cfg: Config, l: Ledger, key: CollectionKey, since: Time) {
    key in l.collections
    && ((l.collections[key].status == Running && l.collections[key].startedAt >= since) || (IsDone(l, key) && !cfg.appendMode))
  }

  lemma GuardsIff(cfg: Config, l: Ledger, key: CollectionKey, since: Time)
    requires LedgerSound(l)
    ensures Guards(cfg, l, key, since) <==> forall t :: MayBegin(l, key, t, LEASE, cfg.appendMode) ==> t - since >= LEASE
  {
    if !Guards(cfg, l, key, since) {
      assert MayBegin(l, key, since + LEASE - 1, LEASE, cfg.appendMode);
    }
  }

  predicate Releases(e: Event, key: CollectionKey) {
    (e.End? && e.key == key) || (e.Drop? && e.key == key)
  }

  // The event's own save went through. Every save writes the whole ledger.
  predicate Saves(e: Event) {
    match e
    case Begin(_, _, saved) => saved
    case End(_, _, _, _, saved) => saved
    case Drop(_, saved) => saved
    case MarkCompleted(_, _, saved) => saved
    case MarkFailed(_, _, _, saved) => saved
    case Resave(saved) => saved
    case _ => false
  }

  // What was in memory is on disk before the process first dies: it is there already, or a later save comes first.
  predicate Durable(onDisk: bool, es: seq<Event>)
    decreases |es|
  {
    onDisk || es == [] || (!es[0].Crash? && Durable(Saves(es[0]), es[1..]))
  }

  lemma {:induction false} DurablePrefix(onDisk: bool, es: seq<Event>, n: nat)
    requires Durable(onDisk, es) && n <= |es|
    ensures Durable(onDisk, es[..n])
    decreases n
  {
    if !onDisk && n > 0 {
      DurablePrefix(Saves(es[0]), es[1..], n - 1);
      assert es[..n][1..] == es[1..][..n - 1];
    }
  }

  lemma {:induction false} LegalPrefix(cfg: Config, w: World, es: seq<Event>, n: nat)
    requires Legal(cfg, w, es) && n <= |es|
    ensures Legal(cfg, w, es[..n])
    decreases n
  {
    if n > 0 {
      LegalPrefix(cfg, Apply(cfg, w, es[0]), es[1..], n - 1);
      assert es[..n][1..] == es[1..][..n - 1] && es[..n][0] == es[0];
    }
  }

  // The events up to and including the first crash.
  function UntilCrash(es: seq<Event>): (cut: seq<Event>)
    ensures cut <= es
    decreases |es|
  {
    if es == [] then [] else if es[0].Crash? then [es[0]] else [es[0]] + UntilCrash(es[1..])
  }

  lemma SaveStep(cfg: Config, w: World, e: Event)
    requires Inv(cfg, w) && Enabled(cfg, w, e) && !e.Crash?
    ensures Apply(cfg, w, e).disk == if Saves(e) then Compact(Apply(cfg, w, e).mem) else w.disk
  {
  }

  lemma UnsavedStep(cfg: Config, w: World, e: Event)
    requires !Saves(e) && !e.Crash?
    ensures Apply(cfg, w, e).disk == w.disk
  {
  }

  /** A crash before any save brings back the ledger that is on disk, whatever was done in memory since. */
  lemma {:induction false} UnsavedIsForgotten(cfg: Config, w: World, es: seq<Event>)
    requires LedgerSound(w.disk) && Legal(cfg, w, es) && !Durable(false, es)
    ensures var v := Final(cfg, w, UntilCrash(es)); v.mem == w.disk && v.disk == w.disk && v.active.None?
    decreases |es|
  {
    var cut := UntilCrash(es);
    assert cut[0] == es[0] && cut[1..] == if es[0].Crash? then [] else UntilCrash(es[1..]);
    if es[0].Crash? {
      NothingToMigrate(w.disk);
      assert Final(cfg, w, cut) == Apply(cfg, w, Crash);
    } else {
      UnsavedStep(cfg, w, es[0]);
      UnsavedIsForgotten(cfg, Apply(cfg, w, es[0]), es[1..]);
    }
  }

  lemma GuardsCompact(cfg: Config, l: Ledger, key: CollectionKey, since: Time)
    ensures Guards(cfg, Compact(l), key, since) <==> Guards(cfg, l, key, since)
  {
  }

  lemma GuardsInMemory(cfg: Config, w: World, e: Event, key: CollectionKey, since: Time)
    requires Inv(cfg, w) && Enabled(cfg, w, e) && !Releases(e, key) && !e.Crash?
    requires Guards(cfg, w.mem, key, since)
    ensures Guards(cfg, Apply(cfg, w, e).mem, key, since)
  {
    if e.Begin? && e.key == key { assert w.mem.collections[key].status == Running ==> e.now - w.mem.collections[key].startedAt >= LEASE; }
  }

  lemma GuardsStep(cfg: Config, w: World, e: Event, key: CollectionKey, since: Time)
    requires Inv(cfg, w) && Enabled(cfg, w, e) && !Releases(e, key)
    requires Guards(cfg, w.mem, key, since)
    ensures !e.Crash? || Guards(cfg, w.disk, key, since) ==> Guards(cfg, Apply(cfg, w, e).mem, key, since)
    ensures Saves(e) || Guards(cfg, w.disk, key, since) ==> Guards(cfg, Apply(cfg, w, e).disk, key, since)
  {
    if e.Crash? {
      NothingToMigrate(w.disk);
    } else {
      SaveStep(cfg, w, e);
      GuardsInMemory(cfg, w, e, key, since);
      GuardsCompact(cfg, Apply(cfg, w, e).mem, key, since);
    }
  }

  lemma {:induction false} GuardsAlong(cfg: Config, w: World, es: seq<Event>, key: CollectionKey, since: Time, onDisk: bool)
    requires Inv(cfg, w) && Legal(cfg, w, es) && forall e :: e in es ==> !Releases(e, key)
    requires Guards(cfg, w.mem, key, since) && (onDisk ==> Guards(cfg, w.disk, key, since)) && Durable(onDisk, es)
    ensures Guards(cfg, Final(cfg, w, es).mem, key, since)
    decreases |es|
  {
    if es != [] {
      StepKeepsInv(cfg, w, es[0]);
      GuardsStep(cfg, w, es[0], key, since);
      GuardsAlong(cfg, Apply(cfg, w, es[0]), es[1..], key, since, onDisk || Saves(es[0]));
    }
  }

  /**
   Two grants of one record with no end or drop between are a lease apart, if a save came before the first crash, or the
   ledger on disk refused the record already.
   */
  lemma LeaseApart(cfg: Config, w: World, key: CollectionKey, t1: Time, saved: bool, es: seq<Event>, t2: Time, saved2: bool)
    requires Inv(cfg, w) && Enabled(cfg, w, Begin(key, t1, saved)) && Legal(cfg, Apply(cfg, w, Begin(key, t1, saved)), es)
    requires Enabled(cfg, Final(cfg, Apply(cfg, w, Begin(key, t1, saved)), es), Begin(key, t2, saved2))
    requires (forall e :: e in es ==> !Releases(e, key)) && Durable(saved || Guards(cfg, w.disk, key, t1), es)
    ensures t2 - t1 >= LEASE
  {
    var w' := Apply(cfg, w, Begin(key, t1, saved));
    StepKeepsInv(cfg, w, Begin(key, t1, saved));
    GuardsCompact(cfg, w'.mem, key, t1);
    GuardsAlong(cfg, w', es, key, t1, saved || Guards(cfg, w.disk, key, t1));
  }

  // At no point of the run is the record granted within a lease from `since`.
  ghost predicate LeaseKept(cfg: Config, w: World, es: seq<Event>, key: CollectionKey, since: Time) {
    forall n, t, saved :: 0 <= n <= |es| && Enabled(cfg, Final(cfg, w, es[..n]), Begin(key, t, saved)) ==> t - since >= LEASE
  }

  /** After a crash before any save, a grant is given again exactly when the ledger on disk before it allows that. */
  lemma ForgottenGrant(cfg: Config, w: World, key: CollectionKey, t1: Time, es: seq<Event>, t2: Time, saved2: bool)
    requires Inv(cfg, w) && Enabled(cfg, w, Begin(key, t1, false)) && Legal(cfg, Apply(cfg, w, Begin(key, t1, false)), es)
    requires !Durable(false, es)
    ensures Enabled(cfg, Final(cfg, Apply(cfg, w, Begin(key, t1, false)), UntilCrash(es)), Begin(key, t2, saved2))
            <==> MayBegin(w.disk, key, t2, LEASE, cfg.appendMode)
  {
    UnsavedIsForgotten(cfg, Apply(cfg, w, Begin(key, t1, false)), es);
  }

  /**
   Exactly when: over a run with no end or drop of the record, the lease of a grant is kept if and only if a save came before
   the first crash, or the ledger that was on disk before the grant refuses the record for as long.
   */
  lemma LeaseKeptIff(cfg: Config, w: World, key: CollectionKey, t1: Time, saved: bool, es: seq<Event>)
    requires Inv(cfg, w) && Enabled(cfg, w, Begin(key, t1, saved)) && Legal(cfg, Apply(cfg, w, Begin(key, t1, saved)), es)
    requires forall e :: e in es ==> !Releases(e, key)
    ensures LeaseKept(cfg, Apply(cfg, w, Begin(key, t1, saved)), es, key, t1)
            <==> Durable(saved || Guards(cfg, w.disk, key, t1), es)
  {
    var w', onDisk := Apply(cfg, w, Begin(key, t1, saved)), saved || Guards(cfg, w.disk, key, t1);
    if Durable(onDisk, es) {
      forall n, t, saved2 | 0 <= n <= |es| && Enabled(cfg, Final(cfg, w', es[..n]), Begin(key, t, saved2)) ensures t - t1 >= LEASE {
        LegalPrefix(cfg, w', es, n);
        DurablePrefix(onDisk, es, n);
        LeaseApart(cfg, w, key, t1, saved, es[..n], t, saved2);
      }
    } else {
      var n := |UntilCrash(es)|;
      assert es[..n] == UntilCrash(es);
      ForgottenGrant(cfg, w, key, t1, es, t1 + LEASE - 1, true);
      assert Enabled(cfg, Final(cfg, w', es[..n]), Begin(key, t1 + LEASE - 1, true));
    }
  }

  /** Such a run: a grant that was not saved is forgotten by a crash and given again at once. */
  lemma UnsavedGrantIsGivenAgain(cfg: Config, key: CollectionKey, now: Time)
    ensures Legal(cfg, START, [Begin(key, now, false), Crash, Begin(key, now, true)])
  {
    var w1 := Apply(cfg, START, Begin(key, now, false));
    var w2 := Apply(cfg, w1, Crash);
    assert w2.mem == EMPTY;
    assert Legal(cfg, w2, [Begin(key, now, true)]);
    assert [Begin(key, now, false), Crash, Begin(key, now, true)][1..] == [Crash, Begin(key, now, true)];
    assert [Crash, Begin(key, now, true)][1..] == [Begin(key, now, true)];
    assert Legal(cfg, w1, [Crash, Begin(key, now, true)]);
  }

  lemma DoneStep(cfg: Config, w: World, e: Event, key: CollectionKey)
    requires Inv(cfg, w) && Enabled(cfg, w, e) && !cfg.appendMode && !(e.Drop? && e.key == key)
    requires IsDone(w.mem, key)
    ensures !e.Crash? || IsDone(w.disk, key) ==> IsDone(Apply(cfg, w, e).mem, key)
    ensures Saves(e) || IsDone(w.disk, key) ==> IsDone(Apply(cfg, w, e).disk, key)
  {
    if e.Crash? {
      NothingToMigrate(w.disk);
    } else {
      SaveStep(cfg, w, e);
    }
  }

  lemma {:induction false} DoneAlong(cfg: Config, w: World, es: seq<Event>, key: CollectionKey, onDisk: bool)
    requires Inv(cfg, w) && Legal(cfg, w, es) && !cfg.appendMode
    requires (forall e :: e in es ==> !(e.Drop? && e.key == key)) && Durable(onDisk, es)
    requires IsDone(w.mem, key) && (onDisk ==> IsDone(w.disk, key))
    ensures IsDone(Final(cfg, w, es).mem, key)
    decreases |es|
  {
    if es != [] {
      StepKeepsInv(cfg, w, es[0]);
      DoneStep(cfg, w, es[0], key);
      DoneAlong(cfg, Apply(cfg, w, es[0]), es[1..], key, onDisk || Saves(es[0]));
    }
  }

  /**
   In batch mode a collection that ended as succeeded is not granted again until it is dropped, if a save came before the first
   crash, or the record on disk was a success already.
   */
  lemma SucceededIsFinal(cfg: Config, w: World, key: CollectionKey, note: string, t: Time, saved: bool, es: seq<Event>,
                         now: Time, saved2: bool)
    requires Inv(cfg, w) && !cfg.appendMode
    requires Enabled(cfg, w, End(key, Succeeded, note, t, saved))
    requires Legal(cfg, Apply(cfg, w, End(key, Succeeded, note, t, saved)), es)
    requires (forall e :: e in es ==> !(e.Drop? && e.key == key)) && Durable(saved || IsDone(w.disk, key), es)
    ensures !Enabled(cfg, Final(cfg, Apply(cfg, w, End(key, Succeeded, note, t, saved)), es), Begin(key, now, saved2))
  {
    StepKeepsInv(cfg, w, End(key, Succeeded, note, t, saved));
    DoneAlong(cfg, Apply(cfg, w, End(key, Succeeded, note, t, saved)), es, key, saved || IsDone(w.disk, key));
  }

  // At no point of the run can the record be granted, whatever the time.
  ghost predicate NeverGranted(cfg: Config, w: World, es: seq<Event>, key: CollectionKey) {
    forall n, t, saved :: 0 <= n <= |es| ==> !Enabled(cfg, Final(cfg, w, es[..n]), Begin(key, t, saved))
  }

  // Whatever is recorded short of a success can be granted at some time.
  lemma UnfinishedIsGranted(cfg: Config, l: Ledger, key: CollectionKey) returns (t: Time)
    requires !IsDone(l, key)
    ensures MayBegin(l, key, t, LEASE, cfg.appendMode)
  {
    t := if key in l.collections then l.collections[key].startedAt + LEASE else 0;
  }

  /**
   Exactly when: over a run without a drop of the record, its success is final if and only if a save came before the first
   crash, or the record was a success on disk before it ended.
   */
  lemma FinalIff(cfg: Config, w: World, key: CollectionKey, note: string, t: Time, saved: bool, es: seq<Event>)
    requires Inv(cfg, w) && !cfg.appendMode
    requires Enabled(cfg, w, End(key, Succeeded, note, t, saved))
    requires Legal(cfg, Apply(cfg, w, End(key, Succeeded, note, t, saved)), es)
    requires forall e :: e in es ==> !(e.Drop? && e.key == key)
    ensures NeverGranted(cfg, Apply(cfg, w, End(key, Succeeded, note, t, saved)), es, key)
            <==> Durable(saved || IsDone(w.disk, key), es)
  {
    var w', onDisk := Apply(cfg, w, End(key, Succeeded, note, t, saved)), saved || IsDone(w.disk, key);
    if Durable(onDisk, es) {
      forall n, now, saved2 | 0 <= n <= |es| ensures !Enabled(cfg, Final(cfg, w', es[..n]), Begin(key, now, saved2)) {
        LegalPrefix(cfg, w', es, n);
        DurablePrefix(onDisk, es, n);
        SucceededIsFinal(cfg, w, key, note, t, saved, es[..n], now, saved2);
      }
    } else {
      var n := |UntilCrash(es)|;
      assert es[..n] == UntilCrash(es);
      UnsavedStep(cfg, w, End(key, Succeeded, note, t, saved));
      UnsavedIsForgotten(cfg, w', es);
      var now := UnfinishedIsGranted(cfg, w.disk, key);
      assert Enabled(cfg, Final(cfg, w', es[..n]), Begin(key, now, true));
    }
  }

  /** Such a run: an end that was not saved is forgotten by a crash, and the date is collected again. */
  lemma UnsavedSuccessIsRepeated(cfg: Config, key: CollectionKey, now: Time)
    ensures Legal(cfg, START, [Begin(key, now, true), End(key, Succeeded, "", now, false), Crash, Begin(key, now + LEASE, true)])
  {
    var es := [Begin(key, now, true), End(key, Succeeded, "", now, false), Crash, Begin(key, now + LEASE, true)];
    var w1 := Apply(cfg, START, es[0]);
    var w2 := Apply(cfg, w1, es[1]);
    var w3 := Apply(cfg, w2, es[2]);
    assert w3.mem.collections == map[key := CollectionRecord(key, Running, now, ZERO_TIME, "")];
    assert es[1..][1..][1..] == [es[3]] && Legal(cfg, w3, [es[3]]);
    assert es[1..][1..] == [es[2]] + es[1..][1..][1..] && Legal(cfg, w2, es[1..][1..]);
    assert es[1..] == [es[1]] + es[1..][1..] && Legal(cfg, w1, es[1..]);
  }

  lemma BegunKeepsCompleted(l: Ledger, k: CollectionKey, now: Time, key: CollectionKey, file: FileIdentity)
    requires IsCompleted(l, key, file)
    ensures IsCompleted(Begun(l, k, now), key, file)
  {
  }

  lemma EndedKeepsCompleted(l: Ledger, k: CollectionKey, status: Status, note: string, now: Time, key: CollectionKey, file: FileIdentity)
    requires IsCompleted(l, key, file) && k in l.collections
    ensures IsCompleted(Ended(l, k, status, note, now), key, file)
  {
  }

  lemma DroppedKeepsCompleted(l: Ledger, k: CollectionKey, key: CollectionKey, file: FileIdentity)
    requires IsCompleted(l, key, file) && k != key
    ensures IsCompleted(Dropped(l, k), key, file)
  {
  }

  lemma MarkKeepsCompleted(l: Ledger, k: CollectionKey, f: FileIdentity, records: int, now: Time, key: CollectionKey, file: FileIdentity)
    requires IsCompleted(l, key, file)
    ensures IsCompleted(Completed(l, k, f, records, now), key, file)
  {
  }

  lemma FailureKeepsCompleted(l: Ledger, k: CollectionKey, f: FileIdentity, error: string, now: Time, key: CollectionKey, file: FileIdentity)
    requires IsCompleted(l, key, file)
    ensures IsCompleted(FileFailed(l, k, f, error, now), key, file)
  {
  }

  lemma CompactKeepsCompleted(l: Ledger, key: CollectionKey, file: FileIdentity)
    requires IsCompleted(l, key, file)
    ensures IsCompleted(Compact(l), key, file)
  {
  }

  lemma CompletedInMemory(cfg: Config, w: World, e: Event, key: CollectionKey, file: FileIdentity)
    requires Enabled(cfg, w, e) && !(e.Drop? && e.key == key) && !e.Crash?
    requires w.active.Some? ==> w.active.value in w.mem.collections
    requires IsCompleted(w.mem, key, file)
    ensures IsCompleted(Apply(cfg, w, e).mem, key, file)
  {
    match e
    case Begin(k, now, saved) => BegunKeepsCompleted(w.mem, k, now, key, file);
    case End(k, status, note, now, saved) => EndedKeepsCompleted(w.mem, k, status, note, now, key, file);
    case Drop(k, saved) => DroppedKeepsCompleted(w.mem, k, key, file);
    case MarkCompleted(j, now, saved) => MarkKeepsCompleted(w.mem, w.active.value, w.jobs[j].file, w.jobs[j].sent, now, key, file);
    case MarkFailed(f, error, now, saved) => FailureKeepsCompleted(w.mem, w.active.value, f, error, now, key, file);
    case _ =>
  }

  lemma CompletedStep(cfg: Config, w: World, e: Event, key: CollectionKey, file: FileIdentity)
    requires Inv(cfg, w) && Enabled(cfg, w, e) && !(e.Drop? && e.key == key)
    requires IsCompleted(w.mem, key, file)
    ensures !e.Crash? || IsCompleted(w.disk, key, file) ==> IsCompleted(Apply(cfg, w, e).mem, key, file)
    ensures Saves(e) || IsCompleted(w.disk, key, file) ==> IsCompleted(Apply(cfg, w, e).disk, key, file)
  {
    if e.Crash? {
      NothingToMigrate(w.disk);
    } else {
      SaveStep(cfg, w, e);
      CompletedInMemory(cfg, w, e, key, file);
      CompactKeepsCompleted(Apply(cfg, w, e).mem, key, file);
    }
  }

  lemma {:induction false} CompletedAlong(cfg: Config, w: World, es: seq<Event>, key: CollectionKey, file: FileIdentity, onDisk: bool)
    requires Inv(cfg, w) && Legal(cfg, w, es) && forall e :: e in es ==> !(e.Drop? && e.key == key)
    requires IsCompleted(w.mem, key, file) && (onDisk ==> IsCompleted(w.disk, key, file)) && Durable(onDisk, es)
    ensures IsCompleted(Final(cfg, w, es).mem, key, file)
    decreases |es|
  {
    if es != [] {
      StepKeepsInv(cfg, w, es[0]);
      CompletedStep(cfg, w, es[0], key, file);
      CompletedAlong(cfg, Apply(cfg, w, es[0]), es[1..], key, file, onDisk || Saves(es[0]));
    }
  }

  ghost predicate StaysMarked(cfg: Config, w: World, es: seq<Event>, key: CollectionKey, file: FileIdentity) {
    forall n :: 0 <= n <= |es| ==> IsCompleted(Final(cfg, w, es[..n]).mem, key, file)
  }

  // At some point of the run the file can be started under the key.
  ghost predicate Restarts(cfg: Config, w: World, es: seq<Event>, key: CollectionKey, file: FileIdentity, job: nat) {
    exists n :: 0 <= n <= |es| && Final(cfg, w, es[..n]).active == Some(key) && Enabled(cfg, Final(cfg, w, es[..n]), StartFile(job, file))
  }

  /**
   Until its record is dropped a done file stays marked, and so is not started again under its key, exactly when the mark was on
   disk or a save came before the first crash.
   */
  lemma DoneFileIsNotRestarted(cfg: Config, w: World, es: seq<Event>, key: CollectionKey, file: FileIdentity)
    requires Inv(cfg, w) && Legal(cfg, w, es) && IsCompleted(w.mem, key, file)
    requires forall e :: e in es ==> !(e.Drop? && e.key == key)
    ensures StaysMarked(cfg, w, es, key, file) <==> Durable(IsCompleted(w.disk, key, file), es)
    ensures StaysMarked(cfg, w, es, key, file) ==> forall job :: !Restarts(cfg, w, es, key, file, job)
  {
    var onDisk := IsCompleted(w.disk, key, file);
    if Durable(onDisk, es) {
      forall n | 0 <= n <= |es| ensures IsCompleted(Final(cfg, w, es[..n]).mem, key, file) {
        LegalPrefix(cfg, w, es, n);
        DurablePrefix(onDisk, es, n);
        CompletedAlong(cfg, w, es[..n], key, file, onDisk);
      }
    } else {
      var n := |UntilCrash(es)|;
      assert es[..n] == UntilCrash(es);
      UnsavedIsForgotten(cfg, w, es);
      assert !IsCompleted(Final(cfg, w, es[..n]).mem, key, file);
    }
  }

  predicate NeverDrops(es: seq<Event>, key: CollectionKey) {
    forall e :: e in es ==> !(e.Drop? && e.key == key)
  }

  // Without a drop of the record some continuation starts the file again under its key.
  ghost predicate CanRestart(cfg: Config, w: World, key: CollectionKey, file: FileIdentity) {
    exists es, job :: Legal(cfg, w, es) && NeverDrops(es, key) && StartsAgain(cfg, Final(cfg, w, es), key, file, job)
  }

  predicate StartsAgain(cfg: Config, w: World, key: CollectionKey, file: FileIdentity, job: nat) {
    w.active == Some(key) && Enabled(cfg, w, StartFile(job, file))
  }

  // In memory the file is marked, and on disk the file is or the whole record; or the record is done and not being collected.
  ghost predicate Withheld(cfg: Config, w: World, key: CollectionKey, file: FileIdentity) {
    || (IsCompleted(w.mem, key, file) && (IsCompleted(w.disk, key, file) || (IsDone(w.disk, key) && !cfg.appendMode)))
    || (IsDone(w.mem, key) && IsDone(w.disk, key) && !cfg.appendMode && w.active != Some(key))
  }

  lemma DoneIsNotTaken(cfg: Config, w: World, e: Event, key: CollectionKey)
    requires Inv(cfg, w) && Enabled(cfg, w, e) && !cfg.appendMode && IsDone(w.mem, key) && w.active != Some(key)
    ensures Apply(cfg, w, e).active != Some(key)
  {
  }

  lemma WithheldStep(cfg: Config, w: World, e: Event, key: CollectionKey, file: FileIdentity)
    requires Inv(cfg, w) && Enabled(cfg, w, e) && !(e.Drop? && e.key == key) && Withheld(cfg, w, key, file)
    ensures Withheld(cfg, Apply(cfg, w, e), key, file)
  {
    if IsCompleted(w.mem, key, file) && e.Crash? {
      NothingToMigrate(w.disk);
    } else if IsCompleted(w.mem, key, file) && (IsCompleted(w.disk, key, file) || (IsDone(w.disk, key) && !cfg.appendMode)) {
      CompletedStep(cfg, w, e, key, file);
      SaveStep(cfg, w, e);
    } else {
      DoneStep(cfg, w, e, key);
      DoneIsNotTaken(cfg, w, e, key);
    }
  }

  lemma {:induction false} WithheldAlong(cfg: Config, w: World, es: seq<Event>, key: CollectionKey, file: FileIdentity)
    requires Inv(cfg, w) && Legal(cfg, w, es) && NeverDrops(es, key) && Withheld(cfg, w, key, file)
    ensures Withheld(cfg, Final(cfg, w, es), key, file)
    decreases |es|
  {
    if es != [] {
      StepKeepsInv(cfg, w, es[0]);
      WithheldStep(cfg, w, es[0], key, file);
      WithheldAlong(cfg, Apply(cfg, w, es[0]), es[1..], key, file);
    }
  }

  // The process dies now and the next one takes the record again.
  lemma RestartsAfterCrash(cfg: Config, w: World, key: CollectionKey, file: FileIdentity)
    requires Inv(cfg, w) && file.source == key.source
    requires !IsCompleted(w.disk, key, file) && !(IsDone(w.disk, key) && !cfg.appendMode)
    ensures CanRestart(cfg, w, key, file)
  {
    var t: Time := if key in w.disk.collections then w.disk.collections[key].startedAt + LEASE else 0;
    NothingToMigrate(w.disk);
    var w1 := Apply(cfg, w, Crash);
    assert w1.mem == w.disk && w1.active.None? && w1.jobs == map[];
    TwoSteps(cfg, w, Crash, Begin(key, t, true));
    AgainBegun(cfg, w1, key, t, file);
  }

  lemma TwoSteps(cfg: Config, w: World, a: Event, b: Event)
    requires Enabled(cfg, w, a) && Enabled(cfg, Apply(cfg, w, a), b)
    ensures Legal(cfg, w, [a, b]) && Final(cfg, w, [a, b]) == Apply(cfg, Apply(cfg, w, a), b)
  {
    RunAppend(cfg, w, [], a);
    RunAppend(cfg, w, [] + [a], b);
    assert [] + [a] + [b] == [a, b];
  }

  lemma AgainBegun(cfg: Config, w: World, key: CollectionKey, t: Time, file: FileIdentity)
    requires LedgerSound(w.mem) && w.jobs == map[] && !IsCompleted(w.mem, key, file) && file.source == key.source
    ensures StartsAgain(cfg, Apply(cfg, w, Begin(key, t, true)), key, file, 0)
  {
  }

  lemma WithheldIsNotRestarted(cfg: Config, w: World, key: CollectionKey, file: FileIdentity)
    requires Inv(cfg, w) && Withheld(cfg, w, key, file)
    ensures !CanRestart(cfg, w, key, file)
  {
    forall es, job | Legal(cfg, w, es) && NeverDrops(es, key) ensures !StartsAgain(cfg, Final(cfg, w, es), key, file, job) {
      WithheldAlong(cfg, w, es, key, file);
    }
  }

  /**
   Exactly when: without a drop a done file can be started again under its key if and only if neither its mark is on disk nor, in
   batch mode, a success of the whole record.
   */
  lemma CanRestartIff(cfg: Config, w: World, key: CollectionKey, file: FileIdentity)
    requires Inv(cfg, w) && IsCompleted(w.mem, key, file) && file.source == key.source
    ensures CanRestart(cfg, w, key, file)
            <==> !IsCompleted(w.disk, key, file) && !(IsDone(w.disk, key) && !cfg.appendMode)
  {
    if IsCompleted(w.disk, key, file) || (IsDone(w.disk, key) && !cfg.appendMode) {
      WithheldIsNotRestarted(cfg, w, key, file);
    } else {
      RestartsAfterCrash(cfg, w, key, file);
    }
  }
}
