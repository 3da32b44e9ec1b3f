/**
 The persistent collection state: what was attempted, which files are done, which files failed. `Ledger` is its value;
 `MemoryState` is the object that holds it, method by method; `FileState` adds the file it is saved to.
 */
module State {
  import opened Wrappers
  import opened Model

  datatype CollectionRecord = CollectionRecord(key: CollectionKey, status: Status, startedAt: Time, endedAt: Time, note: string)

  datatype FileRecord = FileRecord(key: CollectionKey, file: FileIdentity, records: int, completedAt: Time)

  datatype FailedFile = FailedFile(key: CollectionKey, file: FileIdentity, error: string, failedAt: Time, attempts: nat)

  datatype Ledger = Ledger(collections: map<CollectionKey, CollectionRecord>,
                           files: map<CollectionKey, map<string, FileRecord>>,
                           failedFiles: map<CollectionKey, map<string, FailedFile>>)

  const EMPTY := Ledger(map[], map[], map[])

  // time.Time{}.
  const ZERO_TIME: Time := -62135596800000000000

  datatype StateError = Cancelled | NotBegun | SaveFailed

  // ---------------------------------------------------------------- what each operation makes of the ledger

  predicate MayBegin(l: Ledger, key: CollectionKey, now: Time, lease: Time, appendMode: bool) {
    key in l.collections ==>
      match l.collections[key].status
      case Succeeded => appendMode
      case Running => now - l.collections[key].startedAt >= lease
      case _ => true
  }

  function Begun(l: Ledger, key: CollectionKey, now: Time): Ledger {
    l.(collections := l.collections[key := CollectionRecord(key, Running, now, ZERO_TIME, "")])
  }

  function Ended(l: Ledger, key: CollectionKey, status: Status, note: string, now: Time): Ledger
    requires key in l.collections
  {
    var rec := l.collections[key];
    var started := if rec.status == Running && rec.startedAt == ZERO_TIME then now else rec.startedAt;
    l.(collections := l.collections[key := rec.(status := status, note := note, startedAt := started, endedAt := now)],
       failedFiles := if status == Succeeded then l.failedFiles - {key} else l.failedFiles)
  }

  function Dropped(l: Ledger, key: CollectionKey): Ledger {
    Ledger(l.collections - {key}, l.files - {key}, l.failedFiles - {key})
  }

  function Inner<V>(m: map<CollectionKey, map<string, V>>, key: CollectionKey): map<string, V> {
    if key in m then m[key] else map[]
  }

  predicate IsCompleted(l: Ledger, key: CollectionKey, file: FileIdentity) {
    && key in l.collections
    && Identity(file) in Inner(l.files, key)
    && Identity(Inner(l.files, key)[Identity(file)].file) == Identity(file)
  }

  /** Marking a file done makes it done and leaves every other file as it was: another version of it is still to be collected. */
  lemma OnlyThatVersionIsDone(l: Ledger, key: CollectionKey, f: FileIdentity, records: int, now: Time, k: CollectionKey, g: FileIdentity)
    ensures var l' := Completed(l, key, f, records, now);
      && (key in l.collections ==> IsCompleted(l', key, f))
      && (k != key || Identity(g) != Identity(f) ==> (IsCompleted(l', k, g) <==> IsCompleted(l, k, g)))
  {
  }

  /** So a file that changed its size or its modification time is not done by having been done before. */
  lemma ChangedIsNotDone(l: Ledger, key: CollectionKey, f: FileIdentity, records: int, now: Time, g: FileIdentity)
    requires f.source == g.source && f.path == g.path && f.hash == "" && g.hash == "" && (f.size != g.size || f.modTime != g.modTime)
    ensures IsCompleted(Completed(l, key, f, records, now), key, g) <==> IsCompleted(l, key, g)
  {
    SameVersionIff(f, g);
    OnlyThatVersionIsDone(l, key, f, records, now, key, g);
  }

  /** Exactly when: marking a discovered file done makes another one done if and only if it is the same file in the same version. */
  lemma DoneIffSameFile(l: Ledger, key: CollectionKey, f: FileIdentity, records: int, now: Time, g: FileIdentity)
    requires key in l.collections && Discovered(f) && Discovered(g) && f.source == g.source
    ensures IsCompleted(Completed(l, key, f, records, now), key, g)
      <==> IsCompleted(l, key, g)
           || (f.path == g.path && f.hash == g.hash && (f.hash == "" ==> f.size == g.size && f.modTime == g.modTime))
  {
    DiscoveredApartIff(f, g);
    OnlyThatVersionIsDone(l, key, f, records, now, key, g);
  }

  // The failures left after a file on `path` completed.
  function Retired(failures: map<string, FailedFile>, path: string): map<string, FailedFile> {
    map id | id in failures && failures[id].file.path != path :: failures[id]
  }

  function Completed(l: Ledger, key: CollectionKey, file: FileIdentity, records: int, now: Time): Ledger {
    l.(files := l.files[key := Inner(l.files, key)[Identity(file) := FileRecord(key, file, records, now)]],
       failedFiles := if key in l.failedFiles then l.failedFiles[key := Retired(l.failedFiles[key], file.path)] else l.failedFiles)
  }

  function FailureOf(l: Ledger, key: CollectionKey, file: FileIdentity, error: string, now: Time): FailedFile {
    var m, id := Inner(l.failedFiles, key), Identity(file);
    if id in m then m[id].(error := error, failedAt := now, attempts := m[id].attempts + 1)
    else FailedFile(key, file, error, now, 1)
  }

  function FileFailed(l: Ledger, key: CollectionKey, file: FileIdentity, error: string, now: Time): Ledger {
    l.(failedFiles := l.failedFiles[key := Inner(l.failedFiles, key)[Identity(file) := FailureOf(l, key, file, error, now)]])
  }

  // What loading makes of records written by earlier versions.
  function Migrated(l: Ledger): Ledger {
    Ledger(
      map k | k in l.collections && l.collections[k].status != Skipped ::
        if l.collections[k].status == Pending then l.collections[k].(status := Failed) else l.collections[k],
      map k | k in l.files && !(k in l.collections && l.collections[k].status == Skipped) :: l.files[k],
      map k | k in l.failedFiles && !(k in l.collections && LosesFailures(l, k)) :: l.failedFiles[k])
  }

  predicate LosesFailures(l: Ledger, k: CollectionKey)
    requires k in l.collections
  {
    l.collections[k].status == Skipped || (l.collections[k].status == Succeeded && Inner(l.failedFiles, k) != map[])
  }

  /**
   Migration leaves no Skipped or Pending record and no failure on a Succeeded one, and migrating again changes nothing.
   */
  lemma MigrationSettles(l: Ledger)
    ensures Migrated(Migrated(l)) == Migrated(l)
    ensures forall k :: k in Migrated(l).collections ==> Migrated(l).collections[k].status in {Running, Succeeded, Failed}
    ensures forall k :: k in Migrated(l).collections && Migrated(l).collections[k].status == Succeeded
                        ==> Inner(Migrated(l).failedFiles, k) == map[]
  {
  }

  // What the ledger holds under one key.
  datatype Entry = Entry(collection: Option<CollectionRecord>, files: Option<map<string, FileRecord>>,
                         failures: Option<map<string, FailedFile>>)

  function At(l: Ledger, k: CollectionKey): Entry {
    Entry(Find(l.collections, k), Find(l.files, k), Find(l.failedFiles, k))
  }

  lemma SameMap<V>(a: map<CollectionKey, V>, b: map<CollectionKey, V>)
    requires forall k :: Find(a, k) == Find(b, k)
    ensures a == b
  {
    assert forall k :: k in a <==> Find(a, k).Some?;
    assert forall k :: k in b <==> Find(b, k).Some?;
    assert forall k :: k in a ==> Find(a, k).value == a[k] && Find(b, k).value == b[k];
  }

  lemma SameAtAll(a: Ledger, b: Ledger)
    requires forall k :: At(a, k) == At(b, k)
    ensures a == b
  {
    forall k ensures Find(a.collections, k) == Find(b.collections, k) && Find(a.files, k) == Find(b.files, k)
                     && Find(a.failedFiles, k) == Find(b.failedFiles, k) {
      assert At(a, k) == At(b, k);
    }
    SameMap(a.collections, b.collections);
    SameMap(a.files, b.files);
    SameMap(a.failedFiles, b.failedFiles);
  }

  // Every record is filed under its own key and its own identity.
  ghost predicate KeysAgree(l: Ledger) {
    && (forall k :: k in l.collections ==> l.collections[k].key == k)
    && (forall k, id :: k in l.files && id in l.files[k] ==> FiledUnder(l.files[k][id].key, l.files[k][id].file, k, id))
    && (forall k, id :: k in l.failedFiles && id in l.failedFiles[k] ==>
          FiledUnder(l.failedFiles[k][id].key, l.failedFiles[k][id].file, k, id))
  }

  predicate FiledUnder(recKey: CollectionKey, file: FileIdentity, k: CollectionKey, id: string) {
    recKey == k && Identity(file) == id && file.source == k.source
  }

  // ---------------------------------------------------------------- queries

  predicate IsSucceeded(l: Ledger, k: CollectionKey, source: SourceID, before: CollectionDate) {
    && k in l.collections && k.source == source && l.collections[k].status == Succeeded
    && !After(k.date, before)
  }

  // `last` is the latest succeeded date up to `before`, if there is one.
  ghost predicate IsLastCompleted(l: Ledger, source: SourceID, before: CollectionDate, last: Option<CollectionDate>) {
    match last
    case None => forall k :: !IsSucceeded(l, k, source, before)
    case Some(d) =>
      && IsSucceeded(l, CollectionKey(source, d), source, before)
      && forall k :: IsSucceeded(l, k, source, before) ==> !After(k.date, d)
  }

  // A recorded date that is still work: not finished, not beyond `until`, and not held by a running lease.
  predicate IsIncomplete(l: Ledger, k: CollectionKey, source: SourceID, until: CollectionDate, staleAfter: Time, now: Time) {
    && k in l.collections && k.source == source && !After(k.date, until)
    && l.collections[k].status != Succeeded && l.collections[k].status != Skipped
    && (l.collections[k].status == Running ==> now - l.collections[k].startedAt >= staleAfter)
  }

  ghost predicate Ascending(keys: seq<CollectionKey>) {
    forall i, j :: 0 <= i < j < |keys| ==> Before(keys[i].date, keys[j].date)
  }

  // Puts a key in its place among keys in ascending date order.
  function Insert(keys: seq<CollectionKey>, k: CollectionKey): seq<CollectionKey> {
    if keys == [] || Before(k.date, keys[0].date) then [k] + keys else [keys[0]] + Insert(keys[1..], k)
  }

  lemma {:induction false} InsertKeepsOrder(keys: seq<CollectionKey>, k: CollectionKey)
    requires Ascending(keys) && forall x :: x in keys ==> x.date != k.date
    ensures Ascending(Insert(keys, k)) && forall x :: x in Insert(keys, k) <==> x == k || x in keys
    decreases |keys|
  {
    if keys != [] {
      forall a: CollectionDate, b: CollectionDate ensures Before(a, b) || Before(b, a) || a == b { CompareIsDayOrder(a, b); }
      if Before(k.date, keys[0].date) {
        forall j | 0 <= j < |keys| ensures Before(k.date, keys[j].date) {
          if j > 0 {
            CompareIsDayOrder(k.date, keys[0].date);
            CompareIsDayOrder(keys[0].date, keys[j].date);
            CompareIsDayOrder(k.date, keys[j].date);
          }
        }
      } else {
        assert keys[0] in keys;
        InsertKeepsOrder(keys[1..], k);
        var out := Insert(keys, k);
        assert out[1..] == Insert(keys[1..], k);
        forall j | 0 < j < |out| ensures Before(keys[0].date, out[j].date) {
          assert out[j] in out[1..];
          if out[j] != k {
            var i :| 0 <= i < |keys[1..]| && keys[1..][i] == out[j];
            assert Before(keys[0].date, keys[i + 1].date);
          }
        }
        forall i, j | 0 <= i < j < |out| ensures Before(out[i].date, out[j].date) {
          if i > 0 { assert out[i] == out[1..][i - 1] && out[j] == out[1..][j - 1]; }
        }
        assert keys == [keys[0]] + keys[1..];
      }
    }
  }

  // ---------------------------------------------------------------- what the queries say after each operation

  /** A granted date is work, and can be granted again, exactly once its lease is over; files and failures are kept. */
  lemma BegunReads(l: Ledger, key: CollectionKey, now: Time, t: Time, lease: Time, appendMode: bool, until: CollectionDate, k: CollectionKey)
    ensures var l' := Begun(l, key, now);
      && (MayBegin(l', key, t, lease, appendMode) <==> t - now >= lease)
      && (IsIncomplete(l', key, key.source, until, lease, t) <==> !After(key.date, until) && t - now >= lease)
      && At(l', key).files == At(l, key).files && At(l', key).failures == At(l, key).failures
      && (k != key ==> At(l', k) == At(l, k))
  {
  }

  /**
   An ended date bears the status, the note and the time of its end, and the files done for it stay done. It is work again
   unless it succeeded or had nothing to collect, and only a success forgets its failed files.
   */
  lemma EndedReads(l: Ledger, key: CollectionKey, status: Status, note: string, now: Time, until: CollectionDate, t: Time, lease: Time,
                   k: CollectionKey, f: FileIdentity)
    requires key in l.collections && status != Running
    ensures var l' := Ended(l, key, status, note, now);
      && l'.collections[key].status == status && l'.collections[key].note == note && l'.collections[key].endedAt == now
      && (l.collections[key].startedAt != ZERO_TIME ==> l'.collections[key].startedAt == l.collections[key].startedAt)
      && (IsSucceeded(l', key, key.source, until) <==> status == Succeeded && !After(key.date, until))
      && (IsIncomplete(l', key, key.source, until, lease, t) <==> status in {Failed, Pending} && !After(key.date, until))
      && (IsCompleted(l', k, f) <==> IsCompleted(l, k, f))
      && At(l', key).failures == (if status == Succeeded then None else At(l, key).failures)
      && (k != key ==> At(l', k) == At(l, k))
  {
  }

  /** A dropped date is as one never begun: nothing of it is recorded, it can be granted, and no file is done for it. */
  lemma DroppedReads(l: Ledger, key: CollectionKey, now: Time, lease: Time, appendMode: bool, k: CollectionKey, f: FileIdentity)
    ensures var l' := Dropped(l, key);
      && At(l', key) == At(EMPTY, key) && MayBegin(l', key, now, lease, appendMode) && !IsCompleted(l', key, f)
      && (k != key ==> At(l', k) == At(l, k))
  {
  }

  datatype Attempt = Attempt(error: string, at: Time)

  // A file fails again and again.
  function FailedAgain(l: Ledger, key: CollectionKey, f: FileIdentity, attempts: seq<Attempt>): Ledger
    decreases |attempts|
  {
    if attempts == [] then l
    else FailedAgain(FileFailed(l, key, f, attempts[0].error, attempts[0].at), key, f, attempts[1..])
  }

  function AttemptsOf(l: Ledger, key: CollectionKey, f: FileIdentity): nat {
    var m := Inner(l.failedFiles, key);
    if Identity(f) in m then m[Identity(f)].attempts else 0
  }

  /** Every failure of a file is counted and the last one is the one on record; other files' failures stay as they are. */
  lemma {:induction false} FailuresAreCounted(l: Ledger, key: CollectionKey, f: FileIdentity, attempts: seq<Attempt>, k: CollectionKey, g: FileIdentity)
    requires attempts != []
    ensures var l' := FailedAgain(l, key, f, attempts);
      && AttemptsOf(l', key, f) == AttemptsOf(l, key, f) + |attempts|
      && Identity(f) in Inner(l'.failedFiles, key)
      && (var rec := l'.failedFiles[key][Identity(f)];
          Attempt(rec.error, rec.failedAt) == attempts[|attempts| - 1])
      && (k != key || Identity(g) != Identity(f) ==>
            Find(Inner(l'.failedFiles, k), Identity(g)) == Find(Inner(l.failedFiles, k), Identity(g)))
      && l'.collections == l.collections && l'.files == l.files
    decreases |attempts|
  {
    var next := FileFailed(l, key, f, attempts[0].error, attempts[0].at);
    if |attempts| == 1 {
      assert FailedAgain(next, key, f, attempts[1..]) == next;
    } else {
      FailuresAreCounted(next, key, f, attempts[1..], k, g);
    }
  }

  /** Completing a file forgets the failures on its path, whatever version of it they were of, and no others. */
  lemma CompletingRetires(l: Ledger, key: CollectionKey, f: FileIdentity, records: int, now: Time, id: string)
    ensures var was, left := Inner(l.failedFiles, key), Inner(Completed(l, key, f, records, now).failedFiles, key);
      Find(left, id) == if id in was && was[id].file.path == f.path then None else Find(was, id)
  {
  }

  /** Loading neither loses nor adds work: the same dates are left to do, the same are done, and what waited is retried. */
  lemma MigrationKeepsWork(l: Ledger, k: CollectionKey, source: SourceID, until: CollectionDate, lease: Time, now: Time, appendMode: bool)
    ensures var m := Migrated(l);
      && (IsIncomplete(m, k, source, until, lease, now) <==> IsIncomplete(l, k, source, until, lease, now))
      && (IsSucceeded(m, k, source, until) <==> IsSucceeded(l, k, source, until))
      && (MayBegin(m, k, now, lease, appendMode) <==> MayBegin(l, k, now, lease, appendMode))
  {
  }

  /** And key by key: a waiting record stays as a failed one, one without data goes with all that hangs on it. */
  lemma MigrationKeepsRecords(l: Ledger, k: CollectionKey)
    ensures k !in l.collections ==> At(Migrated(l), k) == At(l, k)
    ensures k in l.collections ==>
      match l.collections[k].status
      case Skipped => At(Migrated(l), k) == At(EMPTY, k)
      case Pending => At(Migrated(l), k) == At(l, k).(collection := Some(l.collections[k].(status := Failed)))
      case Succeeded => At(Migrated(l), k).collection == At(l, k).collection && At(Migrated(l), k).files == At(l, k).files
      case _ => At(Migrated(l), k) == At(l, k)
  {
  }

  // ---------------------------------------------------------------- the object

  class MemoryState {
    var collections: map<CollectionKey, CollectionRecord>
    var files: map<CollectionKey, map<string, FileRecord>>
    var failedFiles: map<CollectionKey, map<string, FailedFile>>
    var appendMode: bool

    function View(): Ledger
      reads this
    {
      Ledger(collections, files, failedFiles)
    }

    constructor ()
      ensures View() == EMPTY && !appendMode
    {
      collections, files, failedFiles, appendMode := map[], map[], map[], false;
    }

    method SetAppendMode()
      modifies `appendMode
      ensures appendMode
    {
      appendMode := true;
    }

    method Begin(cancelled: bool, key: CollectionKey, now: Time, lease: Time) returns (r: Result<bool, StateError>)
      modifies `collections
      ensures cancelled ==> r == Failure(Cancelled) && View() == old(View())
      ensures !cancelled ==> r == Success(MayBegin(old(View()), key, now, lease, appendMode))
      ensures !cancelled ==> View() == if r == Success(true) then Begun(old(View()), key, now) else old(View())
    {
      if cancelled {
        return Failure(Cancelled);
      }
      if key in collections {
        var rec := collections[key];
        match rec.status {
          case Succeeded =>
            if !appendMode { return Success(false); }
          case Running =>
            if now - rec.startedAt < lease { return Success(false); }
          case _ =>
        }
      }
      collections := collections[key := CollectionRecord(key, Running, now, ZERO_TIME, "")];
      return Success(true);
    }

    method End(cancelled: bool, key: CollectionKey, status: Status, note: string, now: Time) returns (err: Option<StateError>)
      modifies `collections, `failedFiles
      ensures err == if cancelled then Some(Cancelled) else if key !in old(collections) then Some(NotBegun) else None
      ensures View() == if err.None? then Ended(old(View()), key, status, note, now) else old(View())
    {
      if cancelled {
        return Some(Cancelled);
      }
      if key !in collections {
        return Some(NotBegun);
      }
      var rec := collections[key];
      if rec.status == Running && rec.startedAt == ZERO_TIME {
        rec := rec.(startedAt := now);
      }
      rec := rec.(status := status, note := note, endedAt := now);
      collections := collections[key := rec];
      if status == Succeeded {
        failedFiles := failedFiles - {key};
      }
      return None;
    }

    method Drop(cancelled: bool, key: CollectionKey) returns (err: Option<StateError>)
      modifies `collections, `files, `failedFiles
      ensures err == if cancelled then Some(Cancelled) else None
      ensures View() == if err.None? then Dropped(old(View()), key) else old(View())
    {
      if cancelled {
        return Some(Cancelled);
      }
      collections, files, failedFiles := collections - {key}, files - {key}, failedFiles - {key};
      return None;
    }

    method FileCompleted(cancelled: bool, key: CollectionKey, file: FileIdentity) returns (r: Result<bool, StateError>)
      ensures r == if cancelled then Failure(Cancelled) else Success(IsCompleted(View(), key, file))
    {
      if cancelled {
        return Failure(Cancelled);
      }
      if key !in collections || key !in files || Identity(file) !in files[key] {
        return Success(false);
      }
      return Success(Identity(files[key][Identity(file)].file) == Identity(file));
    }

    method MarkFileCompleted(cancelled: bool, key: CollectionKey, file: FileIdentity, records: int, now: Time)
      returns (err: Option<StateError>)
      modifies `files, `failedFiles
      ensures err == if cancelled then Some(Cancelled) else if key !in collections then Some(NotBegun) else None
      ensures View() == if err.None? then Completed(old(View()), key, file, records, now) else old(View())
    {
      if cancelled {
        return Some(Cancelled);
      }
      if key !in collections {
        return Some(NotBegun);
      }
      var inner := if key in files then files[key] else map[];
      files := files[key := inner[Identity(file) := FileRecord(key, file, records, now)]];
      if key in failedFiles {
        var left := RetireFailures(failedFiles[key], file.path);
        failedFiles := failedFiles[key := left];
      }
      return None;
    }

    method MarkFileFailed(cancelled: bool, key: CollectionKey, file: FileIdentity, error: string, now: Time)
      returns (err: Option<StateError>)
      modifies `failedFiles
      ensures err == if cancelled then Some(Cancelled) else None
      ensures View() == if err.None? then FileFailed(old(View()), key, file, error, now) else old(View())
    {
      if cancelled {
        return Some(Cancelled);
      }
      var inner := if key in failedFiles then failedFiles[key] else map[];
      var rec := if Identity(file) in inner then inner[Identity(file)] else FailedFile(key, file, "", ZERO_TIME, 0);
      rec := rec.(error := error, failedAt := now, attempts := rec.attempts + 1);
      failedFiles := failedFiles[key := inner[Identity(file) := rec]];
      return None;
    }

    method LastCompleted(cancelled: bool, source: SourceID, before: CollectionDate)
      returns (r: Result<Option<CollectionDate>, StateError>)
      requires KeysAgree(View())
      ensures cancelled ==> r == Failure(Cancelled)
      ensures !cancelled ==> r.Success? && IsLastCompleted(View(), source, before, r.value)
    {
      if cancelled {
        return Failure(Cancelled);
      }
      var last: Option<CollectionDate> := None;
      var todo := collections.Keys;
      while todo != {}
        invariant todo <= collections.Keys
        invariant last.Some? ==> IsSucceeded(View(), CollectionKey(source, last.value), source, before)
        invariant forall k :: IsSucceeded(View(), k, source, before) && k !in todo ==> last.Some? && !After(k.date, last.value)
      {
        var k :| k in todo;
        var rec := collections[k];
        if rec.key.source == source && rec.status == Succeeded && !After(rec.key.date, before)
           && (last.None? || Before(last.value, rec.key.date)) {
          LaterKeepsBounds(View(), source, before, todo, last, rec.key.date);
          last := Some(rec.key.date);
        } else if last.Some? {
          CompareIsDayOrder(last.value, rec.key.date);
          CompareIsDayOrder(rec.key.date, last.value);
        }
        todo := todo - {k};
      }
      return Success(last);
    }

    /** The recorded work of one source up to a date, oldest first. */
    method ListIncomplete(cancelled: bool, source: SourceID, until: CollectionDate, staleAfter: Time, now: Time)
      returns (r: Result<seq<CollectionKey>, StateError>)
      requires KeysAgree(View())
      ensures cancelled ==> r == Failure(Cancelled)
      ensures !cancelled ==> r.Success? && Ascending(r.value)
      ensures !cancelled ==> forall k :: k in r.value <==> IsIncomplete(View(), k, source, until, staleAfter, now)
    {
      if cancelled {
        return Failure(Cancelled);
      }
      var out: seq<CollectionKey> := [];
      var todo := collections.Keys;
      while todo != {}
        invariant todo <= collections.Keys && Ascending(out)
        invariant forall k :: k in out <==> k !in todo && IsIncomplete(View(), k, source, until, staleAfter, now)
      {
        var k :| k in todo;
        var rec := collections[k];
        if rec.key.source == source && rec.status != Succeeded && rec.status != Skipped && !After(rec.key.date, until)
           && !(rec.status == Running && now - rec.startedAt < staleAfter) {
          InsertKeepsOrder(out, k);
          out := Insert(out, rec.key);
        }
        todo := todo - {k};
      }
      return Success(out);
    }

    method StatusOf(key: CollectionKey) returns (r: Option<Status>)
      ensures r == if key in View().collections then Some(View().collections[key].status) else None
    {
      r := if key in collections then Some(collections[key].status) else None;
    }

    /** Visits every record once, in any order, and settles it; the counts are zero exactly when nothing had to change. */
    method MigratePreInstance() returns (purged: nat, converted: nat)
      modifies `collections, `files, `failedFiles
      ensures View() == Migrated(old(View()))
      ensures purged + converted == 0 <==> View() == old(View())
    {
      ghost var was := View();
      var todo := collections.Keys;
      purged, converted := 0, 0;
      while todo != {}
        invariant todo <= was.collections.Keys
        invariant HalfMigrated(was, todo, View())
        invariant purged + converted == 0 <==> forall k :: k in was.collections && k !in todo ==> Settled(was, k)
      {
        var k :| k in todo;
        HalfMigratedStep(was, todo, View(), k);
        var rec := collections[k];
        match rec.status {
          case Skipped =>
            collections, files, failedFiles := collections - {k}, files - {k}, failedFiles - {k};
            purged := purged + 1;
          case Pending =>
            collections := collections[k := rec.(status := Failed)];
            converted := converted + 1;
          case Succeeded =>
            if k in failedFiles && failedFiles[k] != map[] {
              failedFiles := failedFiles - {k};
              purged := purged + 1;
            }
          case _ =>
        }
        todo := todo - {k};
      }
      MigratedIffSettled(was);
      HalfMigratedDone(was, View());
    }
  }

  lemma LaterKeepsBounds(l: Ledger, source: SourceID, before: CollectionDate, todo: set<CollectionKey>,
                         last: Option<CollectionDate>, d: CollectionDate)
    requires last.None? || Before(last.value, d)
    requires forall k :: IsSucceeded(l, k, source, before) && k !in todo ==> last.Some? && !After(k.date, last.value)
    ensures forall k :: IsSucceeded(l, k, source, before) && k !in todo ==> !After(k.date, d)
    ensures !After(d, d)
  {
  }

  method RetireFailures(failures: map<string, FailedFile>, path: string) returns (left: map<string, FailedFile>)
    ensures left == Retired(failures, path)
  {
    left := failures;
    var todo := failures.Keys;
    while todo != {}
      invariant todo <= failures.Keys
      invariant left == map id | id in failures && (id in todo || failures[id].file.path != path) :: failures[id]
    {
      var id :| id in todo;
      if failures[id].file.path == path {
        left := left - {id};
      }
      todo := todo - {id};
    }
  }

  // Migration has nothing to do at this key.
  predicate Settled(l: Ledger, k: CollectionKey)
    requires k in l.collections
  {
    l.collections[k].status != Pending && !LosesFailures(l, k)
  }

  lemma MigratedIffSettled(l: Ledger)
    ensures Migrated(l) == l <==> forall k :: k in l.collections ==> Settled(l, k)
  {
  }

  // What one visit does.
  function MigratedAt(l: Ledger, k: CollectionKey): Ledger
    requires k in l.collections
  {
    match l.collections[k].status
    case Skipped => Dropped(l, k)
    case Pending => l.(collections := l.collections[k := l.collections[k].(status := Failed)])
    case Succeeded => if Inner(l.failedFiles, k) != map[] then l.(failedFiles := l.failedFiles - {k}) else l
    case _ => l
  }

  // Every key is as migration leaves it, except those still to be visited, which are untouched.
  ghost predicate HalfMigrated(was: Ledger, todo: set<CollectionKey>, now: Ledger) {
    forall k :: At(now, k) == if k in todo then At(was, k) else At(Migrated(was), k)
  }

  lemma MigratedAtOnly(l: Ledger, k: CollectionKey)
    requires k in l.collections
    ensures At(MigratedAt(l, k), k) == At(Migrated(l), k)
    ensures forall k' :: k' != k ==> At(MigratedAt(l, k), k') == At(l, k')
    ensures MigratedAt(l, k) == l <==> Settled(l, k)
  {
  }

  lemma MigratedPointwise(a: Ledger, b: Ledger, k: CollectionKey)
    requires At(a, k) == At(b, k)
    ensures At(Migrated(a), k) == At(Migrated(b), k)
    ensures k in a.collections && k in b.collections ==> (Settled(a, k) <==> Settled(b, k))
  {
  }

  lemma HalfMigratedStep(was: Ledger, todo: set<CollectionKey>, now: Ledger, k: CollectionKey)
    requires HalfMigrated(was, todo, now) && k in todo && todo <= was.collections.Keys
    ensures k in now.collections && HalfMigrated(was, todo - {k}, MigratedAt(now, k))
    ensures MigratedAt(now, k) == now <==> Settled(was, k)
  {
    assert At(now, k) == At(was, k);
    MigratedPointwise(now, was, k);
    MigratedAtOnly(now, k);
  }

  lemma HalfMigratedDone(was: Ledger, now: Ledger)
    requires HalfMigrated(was, {}, now)
    ensures now == Migrated(was)
  {
    SameAtAll(now, Migrated(was));
  }
}
