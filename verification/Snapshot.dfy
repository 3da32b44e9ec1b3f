/** The saved form of a ledger, and the state that saves itself after every change. */
module Snapshots {
  import opened Wrappers
  import opened Model
  import opened State

  datatype CollectionJSON = CollectionJSON(source: SourceID, date: CollectionDate, status: Status, startedAt: Time,
                                           endedAt: Time, note: string)

  datatype FileJSON = FileJSON(source: SourceID, date: CollectionDate, path: string, name: string, size: int, modTime: Time,
                               hash: string, records: int, completedAt: Time)

  datatype FailedJSON = FailedJSON(source: SourceID, date: CollectionDate, path: string, name: string, size: int, modTime: Time,
                                   hash: string, error: string, failedAt: Time, attempts: nat)

  datatype Snapshot = Snapshot(collections: seq<CollectionJSON>, files: seq<FileJSON>, failedFiles: seq<FailedJSON>)

  function CollectionOut(rec: CollectionRecord): CollectionJSON {
    CollectionJSON(rec.key.source, rec.key.date, rec.status, rec.startedAt, rec.endedAt, rec.note)
  }

  // The file's own source is not written: the key's stands for it.
  function FileOut(rec: FileRecord): FileJSON {
    FileJSON(rec.key.source, rec.key.date, rec.file.path, rec.file.name, rec.file.size, rec.file.modTime, rec.file.hash,
             rec.records, rec.completedAt)
  }

  function FailedOut(rec: FailedFile): FailedJSON {
    FailedJSON(rec.key.source, rec.key.date, rec.file.path, rec.file.name, rec.file.size, rec.file.modTime, rec.file.hash,
               rec.error, rec.failedAt, rec.attempts)
  }

  // `s` lists every entry of `l` and nothing else, in some order.
  ghost predicate IsSnapshot(s: Snapshot, l: Ledger) {
    && (forall k :: k in l.collections ==> CollectionOut(l.collections[k]) in s.collections)
    && (forall c :: c in s.collections ==> exists k :: k in l.collections && c == CollectionOut(l.collections[k]))
    && ListsFiles(s.files, l.files)
    && ListsFailed(s.failedFiles, l.failedFiles)
  }

  ghost predicate ListsFiles(js: seq<FileJSON>, m: map<CollectionKey, map<string, FileRecord>>) {
    && (forall k, id :: k in m && id in m[k] ==> FileOut(m[k][id]) in js)
    && (forall j :: j in js ==> exists k, id :: k in m && id in m[k] && j == FileOut(m[k][id]))
  }

  ghost predicate ListsFailed(js: seq<FailedJSON>, m: map<CollectionKey, map<string, FailedFile>>) {
    && (forall k, id :: k in m && id in m[k] ==> FailedOut(m[k][id]) in js)
    && (forall j :: j in js ==> exists k, id :: k in m && id in m[k] && j == FailedOut(m[k][id]))
  }

  // ---------------------------------------------------------------- saving

  /** Lists the entries of the state; maps are visited in an arbitrary order. */
  method TakeSnapshot(l: Ledger) returns (s: Snapshot)
    ensures IsSnapshot(s, l)
  {
    var out: seq<CollectionJSON> := [];
    var todo := l.collections.Keys;
    while todo != {}
      invariant todo <= l.collections.Keys
      invariant forall k :: k in l.collections && k !in todo ==> CollectionOut(l.collections[k]) in out
      invariant forall c :: c in out ==> exists k :: k in l.collections && c == CollectionOut(l.collections[k])
    {
      var k :| k in todo;
      out := out + [CollectionOut(l.collections[k])];
      todo := todo - {k};
    }
    var files := ListFiles(l.files);
    var failed := ListFailed(l.failedFiles);
    return Snapshot(out, files, failed);
  }

  method ListFiles(m: map<CollectionKey, map<string, FileRecord>>) returns (js: seq<FileJSON>)
    ensures ListsFiles(js, m)
  {
    js := [];
    var todo := m.Keys;
    while todo != {}
      invariant todo <= m.Keys
      invariant forall k, id :: k in m && k !in todo && id in m[k] ==> FileOut(m[k][id]) in js
      invariant forall j :: j in js ==> exists k, id :: k in m && id in m[k] && j == FileOut(m[k][id])
    {
      var k :| k in todo;
      ghost var before := js;
      var ids := m[k].Keys;
      while ids != {}
        invariant ids <= m[k].Keys
        invariant forall j :: j in before ==> j in js
        invariant forall id :: id in m[k] && id !in ids ==> FileOut(m[k][id]) in js
        invariant forall j :: j in js ==> j in before || exists id :: id in m[k] && j == FileOut(m[k][id])
      {
        var id :| id in ids;
        js := js + [FileOut(m[k][id])];
        ids := ids - {id};
      }
      todo := todo - {k};
    }
  }

  method ListFailed(m: map<CollectionKey, map<string, FailedFile>>) returns (js: seq<FailedJSON>)
    ensures ListsFailed(js, m)
  {
    js := [];
    var todo := m.Keys;
    while todo != {}
      invariant todo <= m.Keys
      invariant forall k, id :: k in m && k !in todo && id in m[k] ==> FailedOut(m[k][id]) in js
      invariant forall j :: j in js ==> exists k, id :: k in m && id in m[k] && j == FailedOut(m[k][id])
    {
      var k :| k in todo;
      ghost var before := js;
      var ids := m[k].Keys;
      while ids != {}
        invariant ids <= m[k].Keys
        invariant forall j :: j in before ==> j in js
        invariant forall id :: id in m[k] && id !in ids ==> FailedOut(m[k][id]) in js
        invariant forall j :: j in js ==> j in before || exists id :: id in m[k] && j == FailedOut(m[k][id])
      {
        var id :| id in ids;
        js := js + [FailedOut(m[k][id])];
        ids := ids - {id};
      }
      todo := todo - {k};
    }
  }

  // ---------------------------------------------------------------- loading

  // One entry of a two-level map; the file's identity is its second key.
  datatype Row<V> = Row(key: CollectionKey, id: string, value: V)

  function Put<V>(m: map<CollectionKey, map<string, V>>, r: Row<V>): map<CollectionKey, map<string, V>> {
    m[r.key := Inner(m, r.key)[r.id := r.value]]
  }

  // Puts the rows one after the other into an empty map.
  function Filled<V>(rows: seq<Row<V>>): map<CollectionKey, map<string, V>> {
    if rows == [] then map[] else Put(Filled(rows[..|rows| - 1]), rows[|rows| - 1])
  }

  function CollectionIn(c: CollectionJSON): CollectionRecord {
    CollectionRecord(CollectionKey(c.source, c.date), c.status, c.startedAt, c.endedAt, c.note)
  }

  function FileIn(f: FileJSON): Row<FileRecord> {
    var k := CollectionKey(f.source, f.date);
    var file := FileIdentity(f.source, f.path, f.name, f.size, f.modTime, f.hash);
    Row(k, Identity(file), FileRecord(k, file, f.records, f.completedAt))
  }

  function FailedIn(f: FailedJSON): Row<FailedFile> {
    var k := CollectionKey(f.source, f.date);
    var file := FileIdentity(f.source, f.path, f.name, f.size, f.modTime, f.hash);
    Row(k, Identity(file), FailedFile(k, file, f.error, f.failedAt, f.attempts))
  }

  function FileRows(fs: seq<FileJSON>): seq<Row<FileRecord>> {
    seq(|fs|, i requires 0 <= i < |fs| => FileIn(fs[i]))
  }

  function FailedRows(fs: seq<FailedJSON>): seq<Row<FailedFile>> {
    seq(|fs|, i requires 0 <= i < |fs| => FailedIn(fs[i]))
  }

  function RestoredCollections(cs: seq<CollectionJSON>): map<CollectionKey, CollectionRecord> {
    if cs == [] then map[]
    else
      var rec := CollectionIn(cs[|cs| - 1]);
      RestoredCollections(cs[..|cs| - 1])[rec.key := rec]
  }

  function Restored(s: Snapshot): Ledger {
    Ledger(RestoredCollections(s.collections), Filled(FileRows(s.files)),
           Filled(FailedRows(s.failedFiles)))
  }

  method LoadCollections(cs: seq<CollectionJSON>) returns (m: map<CollectionKey, CollectionRecord>)
    ensures m == RestoredCollections(cs)
  {
    m := map[];
    for i := 0 to |cs|
      invariant m == RestoredCollections(cs[..i])
    {
      assert cs[..i + 1][..i] == cs[..i];
      var k := CollectionKey(cs[i].source, cs[i].date);
      m := m[k := CollectionRecord(k, cs[i].status, cs[i].startedAt, cs[i].endedAt, cs[i].note)];
    }
    assert cs[..|cs|] == cs;
  }

  method LoadFiles(fs: seq<FileJSON>) returns (m: map<CollectionKey, map<string, FileRecord>>)
    ensures m == Filled(FileRows(fs))
  {
    ghost var rows := FileRows(fs);
    m := map[];
    for i := 0 to |fs|
      invariant m == Filled(rows[..i])
    {
      assert rows[..i + 1][..i] == rows[..i];
      var f := fs[i];
      var k := CollectionKey(f.source, f.date);
      var file := FileIdentity(f.source, f.path, f.name, f.size, f.modTime, f.hash);
      var inner := if k in m then m[k] else map[];
      m := m[k := inner[Identity(file) := FileRecord(k, file, f.records, f.completedAt)]];
    }
    assert rows[..|fs|] == rows;
  }

  method LoadFailed(fs: seq<FailedJSON>) returns (m: map<CollectionKey, map<string, FailedFile>>)
    ensures m == Filled(FailedRows(fs))
  {
    ghost var rows := FailedRows(fs);
    m := map[];
    for i := 0 to |fs|
      invariant m == Filled(rows[..i])
    {
      assert rows[..i + 1][..i] == rows[..i];
      var f := fs[i];
      var k := CollectionKey(f.source, f.date);
      var file := FileIdentity(f.source, f.path, f.name, f.size, f.modTime, f.hash);
      var inner := if k in m then m[k] else map[];
      m := m[k := inner[Identity(file) := FailedFile(k, file, f.error, f.failedAt, f.attempts)]];
    }
    assert rows[..|fs|] == rows;
  }

  // ---------------------------------------------------------------- the round trip

  function Compacted<V>(m: map<CollectionKey, map<string, V>>): map<CollectionKey, map<string, V>> {
    map k | k in m && m[k] != map[] :: m[k]
  }

  // The ledger without empty inner maps.
  function Compact(l: Ledger): Ledger {
    Ledger(l.collections, Compacted(l.files), Compacted(l.failedFiles))
  }

  /** Compaction is not observable: every inner map reads as before. */
  lemma CompactReadsTheSame(l: Ledger, k: CollectionKey)
    ensures Inner(Compact(l).files, k) == Inner(l.files, k) && Inner(Compact(l).failedFiles, k) == Inner(l.failedFiles, k)
    ensures forall file :: IsCompleted(Compact(l), k, file) <==> IsCompleted(l, k, file)
    ensures KeysAgree(l) ==> KeysAgree(Compact(l))
  {
  }

  ghost predicate RowOf<V>(m: map<CollectionKey, map<string, V>>, r: Row<V>) {
    r.key in m && r.id in m[r.key] && m[r.key][r.id] == r.value
  }

  lemma {:induction false} FilledHoldsRows<V>(rows: seq<Row<V>>, m: map<CollectionKey, map<string, V>>)
    requires forall r :: r in rows ==> RowOf(m, r)
    ensures forall k :: k in Filled(rows) ==> Filled(rows)[k] != map[]
    ensures forall r :: RowOf(Filled(rows), r) <==> r in rows
  {
    if rows != [] {
      var init, last := rows[..|rows| - 1], rows[|rows| - 1];
      assert rows == init + [last];
      FilledHoldsRows(init, m);
      var f := Filled(init);
      assert last.id in Put(f, last)[last.key];
      forall r ensures RowOf(Put(f, last), r) <==> r in rows {
        if r.key == last.key && r.id == last.id {
          assert RowOf(f, r) ==> r in init && RowOf(m, r) && RowOf(m, last);
        } else {
          assert RowOf(Put(f, last), r) <==> RowOf(f, r);
        }
      }
    }
  }

  lemma FilledIsCompacted<V>(rows: seq<Row<V>>, m: map<CollectionKey, map<string, V>>)
    requires forall r :: RowOf(m, r) <==> r in rows
    ensures Filled(rows) == Compacted(m)
  {
    FilledHoldsRows(rows, m);
    var f := Filled(rows);
    forall k, id ensures k in f && id in f[k] <==> k in m && id in m[k] {
      if k in f && id in f[k] { assert RowOf(f, Row(k, id, f[k][id])); }
      if k in m && id in m[k] { assert RowOf(m, Row(k, id, m[k][id])); }
    }
    forall k, id | k in f && id in f[k] ensures f[k][id] == m[k][id] {
      assert RowOf(f, Row(k, id, f[k][id]));
    }
    forall k | k in f ensures k in m && f[k] == m[k] {
      var id :| id in f[k];
    }
    forall k | k in m && m[k] != map[] ensures k in f {
      var id :| id in m[k];
    }
  }

  lemma {:induction false} RestoredCollectionsAre(cs: seq<CollectionJSON>, m: map<CollectionKey, CollectionRecord>)
    requires forall c :: c in cs ==> CollectionIn(c).key in m && m[CollectionIn(c).key] == CollectionIn(c)
    ensures forall k :: k in RestoredCollections(cs) <==> k in m && CollectionOut(m[k]) in cs && m[k].key == k
    ensures forall k :: k in RestoredCollections(cs) ==> RestoredCollections(cs)[k] == m[k]
  {
    if cs != [] {
      var init, last := cs[..|cs| - 1], cs[|cs| - 1];
      assert cs == init + [last];
      RestoredCollectionsAre(init, m);
    }
  }

  /** Loading what was saved gives the ledger back, up to empty inner maps, whatever order the entries were written in. */
  lemma RestoreSnapshot(s: Snapshot, l: Ledger)
    requires KeysAgree(l) && IsSnapshot(s, l)
    ensures Restored(s) == Compact(l)
  {
    RestoredCollectionsAre(s.collections, l.collections);
    var files := FileRows(s.files);
    forall r ensures RowOf(l.files, r) <==> r in files { FileRowListed(s, l, r, files); }
    FilledIsCompacted(files, l.files);
    var failed := FailedRows(s.failedFiles);
    forall r ensures RowOf(l.failedFiles, r) <==> r in failed { FailedRowListed(s, l, r, failed); }
    FilledIsCompacted(failed, l.failedFiles);
  }

  lemma FileRowListed(s: Snapshot, l: Ledger, r: Row<FileRecord>, rows: seq<Row<FileRecord>>)
    requires KeysAgree(l) && IsSnapshot(s, l)
    requires |rows| == |s.files| && forall i :: 0 <= i < |rows| ==> rows[i] == FileIn(s.files[i])
    ensures RowOf(l.files, r) <==> r in rows
  {
    if RowOf(l.files, r) {
      assert FiledUnder(r.value.key, r.value.file, r.key, r.id) && FileIn(FileOut(r.value)) == r;
      var i :| 0 <= i < |s.files| && s.files[i] == FileOut(r.value);
      assert rows[i] == r;
    }
    if r in rows {
      var i :| 0 <= i < |rows| && rows[i] == r;
      assert s.files[i] in s.files;
      var k, id :| k in l.files && id in l.files[k] && s.files[i] == FileOut(l.files[k][id]);
      assert FiledUnder(l.files[k][id].key, l.files[k][id].file, k, id);
    }
  }

  lemma FailedRowListed(s: Snapshot, l: Ledger, r: Row<FailedFile>, rows: seq<Row<FailedFile>>)
    requires KeysAgree(l) && IsSnapshot(s, l)
    requires |rows| == |s.failedFiles| && forall i :: 0 <= i < |rows| ==> rows[i] == FailedIn(s.failedFiles[i])
    ensures RowOf(l.failedFiles, r) <==> r in rows
  {
    if RowOf(l.failedFiles, r) {
      assert FiledUnder(r.value.key, r.value.file, r.key, r.id) && FailedIn(FailedOut(r.value)) == r;
      var i :| 0 <= i < |s.failedFiles| && s.failedFiles[i] == FailedOut(r.value);
      assert rows[i] == r;
    }
    if r in rows {
      var i :| 0 <= i < |rows| && rows[i] == r;
      assert s.failedFiles[i] in s.failedFiles;
      var k, id :| k in l.failedFiles && id in l.failedFiles[k] && s.failedFiles[i] == FailedOut(l.failedFiles[k][id]);
      assert FiledUnder(l.failedFiles[k][id].key, l.failedFiles[k][id].file, k, id);
    }
  }

  // ---------------------------------------------------------------- what keeps records under their own keys

  lemma {:induction false} FilledFilesAgree(rows: seq<Row<FileRecord>>)
    requires forall r :: r in rows ==> FiledUnder(r.value.key, r.value.file, r.key, r.id)
    ensures forall k, id :: k in Filled(rows) && id in Filled(rows)[k]
                            ==> FiledUnder(Filled(rows)[k][id].key, Filled(rows)[k][id].file, k, id)
  {
    if rows != [] {
      var init, last := rows[..|rows| - 1], rows[|rows| - 1];
      assert rows == init + [last];
      FilledFilesAgree(init);
    }
  }

  lemma {:induction false} FilledFailedAgree(rows: seq<Row<FailedFile>>)
    requires forall r :: r in rows ==> FiledUnder(r.value.key, r.value.file, r.key, r.id)
    ensures forall k, id :: k in Filled(rows) && id in Filled(rows)[k]
                            ==> FiledUnder(Filled(rows)[k][id].key, Filled(rows)[k][id].file, k, id)
  {
    if rows != [] {
      var init, last := rows[..|rows| - 1], rows[|rows| - 1];
      assert rows == init + [last];
      FilledFailedAgree(init);
    }
  }

  lemma {:induction false} CollectionsAgree(cs: seq<CollectionJSON>)
    ensures forall k :: k in RestoredCollections(cs) ==> RestoredCollections(cs)[k].key == k
  {
    if cs != [] { CollectionsAgree(cs[..|cs| - 1]); }
  }

  /** Whatever a state file holds, loading it files every record under its own key and identity. */
  lemma RestoredAgrees(s: Snapshot)
    ensures KeysAgree(Restored(s))
  {
    CollectionsAgree(s.collections);
    FilledFilesAgree(FileRows(s.files));
    FilledFailedAgree(FailedRows(s.failedFiles));
  }

  // Every operation keeps records under their own keys.
  lemma BeginAgrees(l: Ledger, key: CollectionKey, now: Time)
    requires KeysAgree(l)
    ensures KeysAgree(Begun(l, key, now))
  {
  }

  lemma EndAgrees(l: Ledger, key: CollectionKey, status: Status, note: string, now: Time)
    requires KeysAgree(l) && key in l.collections
    ensures KeysAgree(Ended(l, key, status, note, now))
  {
  }

  lemma DropAgrees(l: Ledger, key: CollectionKey)
    requires KeysAgree(l)
    ensures KeysAgree(Dropped(l, key))
  {
  }

  lemma MigrationAgrees(l: Ledger)
    requires KeysAgree(l)
    ensures KeysAgree(Migrated(l))
  {
  }

  lemma CompletedAgrees(l: Ledger, key: CollectionKey, file: FileIdentity, records: int, now: Time)
    requires KeysAgree(l) && file.source == key.source
    ensures KeysAgree(Completed(l, key, file, records, now))
  {
  }

  lemma FailedAgrees(l: Ledger, key: CollectionKey, file: FileIdentity, error: string, now: Time)
    requires KeysAgree(l) && file.source == key.source
    ensures KeysAgree(FileFailed(l, key, file, error, now))
  {
  }

  // ---------------------------------------------------------------- the object

  method Restore(m: MemoryState, s: Snapshot)
    modifies m
    ensures m.View() == Restored(s) && m.appendMode == old(m.appendMode)
  {
    var cs := LoadCollections(s.collections);
    var fs := LoadFiles(s.files);
    var failed := LoadFailed(s.failedFiles);
    m.collections, m.files, m.failedFiles := cs, fs, failed;
  }

  // What a process that starts on this state file loads, before migration.
  function Loaded(file: Option<Snapshot>): Ledger {
    if file.None? then EMPTY else Restored(file.value)
  }

  class FileState {
    const mem: MemoryState
    var disk: Option<Snapshot>
    var writable: bool            // whether the file system takes a new state file now

    function View(): Ledger
      reads mem
    {
      mem.View()
    }

    function OnDisk(): Ledger
      reads this
    {
      Loaded(disk)
    }

    ghost predicate Valid()
      reads this, mem
    {
      KeysAgree(View())
    }

    constructor (m: MemoryState, file: Option<Snapshot>, writable: bool)
      requires KeysAgree(m.View())
      ensures mem == m && disk == file && this.writable == writable && Valid()
    {
      mem, disk, this.writable := m, file, writable;
    }

    /**
     Loads the state file, if there is one, and settles records of earlier versions; the file is rewritten only when that
     changed something, and no state is returned when the file cannot be read or rewritten.
     */
    static method Open(file: Option<Snapshot>, readable: bool, writable: bool) returns (r: Option<FileState>)
      ensures r.Some? <==> file.None? || (readable && (writable || Migrated(Loaded(file)) == Loaded(file)))
      ensures r.Some? ==> fresh(r.value) && fresh(r.value.mem) && r.value.Valid() && !r.value.mem.appendMode
      ensures r.Some? ==> r.value.View() == Migrated(Loaded(file))
      ensures r.Some? ==> r.value.OnDisk() == if Migrated(Loaded(file)) == Loaded(file) then Loaded(file) else Compact(r.value.View())
    {
      var m := new MemoryState();
      if file.None? {
        var fs := new FileState(m, None, writable);
        return Some(fs);
      }
      if !readable {
        return None;
      }
      Restore(m, file.value);
      RestoredAgrees(file.value);
      ghost var loaded := Loaded(file);
      var purged, converted := m.MigratePreInstance();
      MigrationAgrees(loaded);
      var s := new FileState(m, file, writable);
      if purged + converted > 0 {
        var err := s.Save();
        if err.Some? {
          return None;
        }
      }
      return Some(s);
    }

    /** Replaces the state file, or leaves it as it was. */
    method Save() returns (err: Option<StateError>)
      requires Valid()
      modifies `disk
      ensures Valid() && err == if writable then None else Some(SaveFailed)
      ensures OnDisk() == if err.None? then Compact(View()) else old(OnDisk())
    {
      var s := TakeSnapshot(mem.View());
      if !writable {
        return Some(SaveFailed);
      }
      RestoreSnapshot(s, View());
      disk := Some(s);
      return None;
    }

    method SetAppendMode()
      requires Valid()
      modifies mem, `disk
      ensures Valid() && mem.appendMode && View() == old(View())
      ensures OnDisk() == if writable then Compact(View()) else old(OnDisk())
    {
      mem.SetAppendMode();
      var _ := Save();
    }

    /** Grants the record before saving it: a failed save is reported, but the record in memory is already running. */
    method Begin(cancelled: bool, key: CollectionKey, now: Time, lease: Time) returns (ok: bool, err: Option<StateError>)
      requires Valid()
      modifies mem, `disk
      ensures Valid() && mem.appendMode == old(mem.appendMode)
      ensures ok == (!cancelled && MayBegin(old(View()), key, now, lease, mem.appendMode))
      ensures View() == if ok then Begun(old(View()), key, now) else old(View())
      ensures err == if cancelled then Some(Cancelled) else if ok && !writable then Some(SaveFailed) else None
      ensures OnDisk() == if ok && err.None? then Compact(View()) else old(OnDisk())
    {
      var r := mem.Begin(cancelled, key, now, lease);
      if r.Failure? {
        return false, Some(r.error);
      }
      if !r.value {
        return false, None;
      }
      BeginAgrees(old(View()), key, now);
      ok := true;
      err := Save();
    }

    method End(cancelled: bool, key: CollectionKey, status: Status, note: string, now: Time) returns (err: Option<StateError>)
      requires Valid()
      modifies mem, `disk
      ensures Valid() && mem.appendMode == old(mem.appendMode)
      ensures View() == if cancelled || key !in old(View()).collections then old(View()) else Ended(old(View()), key, status, note, now)
      ensures err == if cancelled then Some(Cancelled) else if key !in old(View()).collections then Some(NotBegun)
                     else if writable then None else Some(SaveFailed)
      ensures OnDisk() == if err.None? then Compact(View()) else old(OnDisk())
    {
      err := mem.End(cancelled, key, status, note, now);
      if err.Some? {
        return;
      }
      EndAgrees(old(View()), key, status, note, now);
      err := Save();
    }

    method Drop(cancelled: bool, key: CollectionKey) returns (err: Option<StateError>)
      requires Valid()
      modifies mem, `disk
      ensures Valid() && mem.appendMode == old(mem.appendMode)
      ensures View() == if cancelled then old(View()) else Dropped(old(View()), key)
      ensures err == if cancelled then Some(Cancelled) else if writable then None else Some(SaveFailed)
      ensures OnDisk() == if err.None? then Compact(View()) else old(OnDisk())
    {
      err := mem.Drop(cancelled, key);
      if err.Some? {
        return;
      }
      DropAgrees(old(View()), key);
      err := Save();
    }

    method MarkFileCompleted(cancelled: bool, key: CollectionKey, file: FileIdentity, records: int, now: Time)
      returns (err: Option<StateError>)
      requires Valid() && file.source == key.source
      modifies mem, `disk
      ensures Valid() && mem.appendMode == old(mem.appendMode)
      ensures View() == if cancelled || key !in old(View()).collections then old(View()) else Completed(old(View()), key, file, records, now)
      ensures err == if cancelled then Some(Cancelled) else if key !in old(View()).collections then Some(NotBegun)
                     else if writable then None else Some(SaveFailed)
      ensures OnDisk() == if err.None? then Compact(View()) else old(OnDisk())
    {
      err := mem.MarkFileCompleted(cancelled, key, file, records, now);
      if err.Some? {
        return;
      }
      CompletedAgrees(old(View()), key, file, records, now);
      err := Save();
    }

    method MarkFileFailed(cancelled: bool, key: CollectionKey, file: FileIdentity, error: string, now: Time)
      returns (err: Option<StateError>)
      requires Valid() && file.source == key.source
      modifies mem, `disk
      ensures Valid() && mem.appendMode == old(mem.appendMode)
      ensures View() == if cancelled then old(View()) else FileFailed(old(View()), key, file, error, now)
      ensures err == if cancelled then Some(Cancelled) else if writable then None else Some(SaveFailed)
      ensures OnDisk() == if err.None? then Compact(View()) else old(OnDisk())
    {
      err := mem.MarkFileFailed(cancelled, key, file, error, now);
      if err.Some? {
        return;
      }
      FailedAgrees(old(View()), key, file, error, now);
      err := Save();
    }
  }
}
