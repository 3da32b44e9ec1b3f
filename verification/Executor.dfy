/**
 The collector of one source: plan the dates, take one at a time, collect its files, mark each done after its last batch.
 Every method is shown to take a run of the protocol, whatever the outside world answers.
 */
module Collector {
  import opened Wrappers
  import opened Model
  import opened State
  import opened Snapshots
  import opened Storage
  import opened Protocol
  import opened MultiRow
  import opened Planning

  // ---------------------------------------------------------------- the services

  ghost predicate Step(cfg: Config, w: World, e: Event, w': World) {
    Enabled(cfg, w, e) && w' == Apply(cfg, w, e)
  }

  // The record was granted at `now`; without a saved grant nothing is collected.
  ghost predicate GrantedAt(cfg: Config, w: World, key: CollectionKey, now: Time, saved: bool, w': World) {
    && MayBegin(w.mem, key, now, LEASE, cfg.appendMode)
    && w' == Saving(w, Begun(w.mem, key, now), saved).(active := if saved then Some(key) else None)
  }

  // At some time from `since` on the record is not to be had: it runs and its lease is not over, or it is done.
  ghost predicate HeldBack(cfg: Config, since: Time, l: Ledger, key: CollectionKey) {
    exists now :: now >= since && !MayBegin(l, key, now, LEASE, cfg.appendMode)
  }

  ghost predicate Closed(cfg: Config, q: iset<World>) {
    forall w, e :: w in q && Enabled(cfg, w, e) ==> Apply(cfg, w, e) in q
  }

  // `w` can be reached from the start: it is in every set of worlds that holds the start and is closed under steps.
  ghost predicate Reached(cfg: Config, w: World) {
    forall q {:trigger Closed(cfg, q)} :: START in q && Closed(cfg, q) ==> w in q
  }

  /** That is: some run leads from the start to `w`. */
  lemma ReachedIsRun(cfg: Config, w: World)
    ensures Reached(cfg, w) <==> Runs(cfg, START, w)
  {
    if Reached(cfg, w) {
      var q := iset v: World | Runs(cfg, START, v);
      RunNothing(cfg, START);
      forall v, e | v in q && Enabled(cfg, v, e) ensures Apply(cfg, v, e) in q { RunStep(cfg, START, v, e); }
      assert Closed(cfg, q);
    }
    if Runs(cfg, START, w) {
      var es :| Legal(cfg, START, es) && Final(cfg, START, es) == w;
      forall q | START in q && Closed(cfg, q) ensures w in q { RunStaysIn(cfg, START, es, q); }
    }
  }

  lemma {:induction false} RunStaysIn(cfg: Config, w: World, es: seq<Event>, q: iset<World>)
    requires w in q && Closed(cfg, q) && Legal(cfg, w, es)
    ensures Final(cfg, w, es) in q
    decreases |es|
  {
    if es != [] { RunStaysIn(cfg, Apply(cfg, w, es[0]), es[1..], q); }
  }

  lemma ReachedStep(cfg: Config, w: World, e: Event)
    requires Reached(cfg, w) && Enabled(cfg, w, e)
    ensures Reached(cfg, Apply(cfg, w, e))
  {
  }

  /** Every world reached satisfies the protocol's invariant. */
  lemma ReachedInv(cfg: Config, w: World)
    requires Reached(cfg, w)
    ensures Inv(cfg, w)
  {
    var q := iset v: World | Inv(cfg, v);
    StartIsSound(cfg);
    forall v, e | v in q && Enabled(cfg, v, e) ensures Apply(cfg, v, e) in q { StepKeepsInv(cfg, v, e); }
    assert Closed(cfg, q);
  }

  lemma ReachedAgrees(cfg: Config, w: World)
    requires Reached(cfg, w)
    ensures KeysAgree(w.mem)
  {
    ReachedInv(cfg, w);
  }

  /** Reads the clock, which shows no time before `since`. */
  method Clock(since: Time) returns (now: Time)
    ensures now >= since
  {
    now := *;
    if now < since {
      now := since;
    }
  }

  // What is seen of the services from outside: the world, the refusals so far, and the batches the store has taken.
  datatype Scene = Scene(w: World, refusals: nat, batches: seq<StoredBatch>)

  /** State and storage as one object; `w` is the protocol state they are in, which some run leads to. */
  class Services {
    const cfg: Config
    const state: FileState
    const store: MemoryStore
    const calm: bool              // the context is never cancelled, and no write or save is refused
    var cancelled: bool
    ghost var w: World
    ghost var refusals: nat       // how many calls were refused: failed writes and saves, and any call under a cancelled context

    ghost predicate Valid()
      reads this, state, state.mem, store
    {
      && store.Valid() && state.mem.appendMode == cfg.appendMode
      && w.mem == state.View() && w.disk == state.OnDisk() && w.store == store.byFile
      && Reached(cfg, w) && (calm ==> !cancelled && refusals == 0 && store.failAfter <= 0)
    }

    constructor (cfg: Config, state: FileState, store: MemoryStore, calm: bool, ghost w: World)
      requires store.Valid() && state.mem.appendMode == cfg.appendMode && (calm ==> store.failAfter <= 0)
      requires w.mem == state.View() && w.disk == state.OnDisk() && w.store == store.byFile
      requires Reached(cfg, w)
      ensures Valid() && this.cfg == cfg && this.state == state && this.store == store && this.calm == calm && this.w == w
      ensures !cancelled && refusals == 0
    {
      this.cfg, this.state, this.store, this.calm, this.w, cancelled, refusals := cfg, state, store, calm, w, false, 0;
    }

    ghost function Seen(): Scene
      reads this, store
    {
      Scene(w, refusals, store.batches)
    }

    ghost function Repr(): set<object> {
      {this, state, state.mem, store}
    }

    ghost method Take(e: Event, w': World)
      requires Step(cfg, w, e, w') && Reached(cfg, w)
      modifies `w
      ensures w == w' && Reached(cfg, w)
    {
      ReachedStep(cfg, w, e);
      w := w';
    }

    ghost method TakeEnd(key: CollectionKey, status: Status, note: string, now: Time, saved: bool, l: Ledger)
      requires Reached(cfg, w) && w.active == Some(key) && w.jobs == map[] && status in {Succeeded, Failed} && key in w.mem.collections
      requires l == Ended(w.mem, key, status, note, now)
      modifies `w
      ensures w == Saving(old(w), l, saved).(active := None) && Reached(cfg, w)
    {
      Take(Event.End(key, status, note, now, saved), Saving(w, l, saved).(active := None));
    }

    ghost method TakeMarkFailed(key: CollectionKey, file: FileIdentity, error: string, now: Time, saved: bool, l: Ledger)
      requires Reached(cfg, w) && w.active == Some(key) && file.source == key.source && l == FileFailed(w.mem, key, file, error, now)
      modifies `w
      ensures w == Saving(old(w), l, saved) && Reached(cfg, w)
    {
      Take(MarkFailed(file, error, now, saved), Saving(w, l, saved));
    }

    /** Time passes: the context may become cancelled, and stays so. */
    method Wait()
      requires Valid()
      modifies `cancelled
      ensures Valid() && (old(cancelled) ==> cancelled)
    {
      var cancel: bool := *;
      cancelled := cancelled || (cancel && !calm);
    }

    // The file system may take the next state file or not.
    method Disk()
      modifies state`writable
      ensures calm ==> state.writable
    {
      var full: bool := *;
      state.writable := calm || !full;
    }

    /** Asks for the record, at no time before `since`. */
    method Begin(key: CollectionKey, since: Time) returns (ok: bool, err: Option<StateError>)
      requires Valid() && w.active.None?
      modifies this, state, state.mem
      ensures Valid() && cancelled == old(cancelled)
      ensures ok ==> exists now :: now >= since && GrantedAt(cfg, old(w), key, now, err.None?, w)
      ensures !ok ==> w == old(w)
      ensures !ok ==> err == if cancelled then Some(Cancelled) else None
      ensures !ok && err.None? ==> HeldBack(cfg, since, old(w).mem, key)
      ensures refusals == old(refusals) + (if err.Some? then 1 else 0)
    {
      var now := Clock(since);
      ReachedAgrees(cfg, w);
      Disk();
      ok, err := state.Begin(cancelled, key, now, LEASE);
      if err.Some? { refusals := refusals + 1; }
      if ok {
        assert GrantedAt(cfg, w, key, now, err.None?, Apply(cfg, w, Event.Begin(key, now, err.None?)));
        Take(Event.Begin(key, now, err.None?), Apply(cfg, w, Event.Begin(key, now, err.None?)));
      }
    }

    method SaveEnd(key: CollectionKey, status: Status, note: string, now: Time) returns (err: Option<StateError>)
      requires state.Valid() && key in state.View().collections
      modifies state, state.mem
      ensures state.mem.appendMode == old(state.mem.appendMode)
      ensures state.View() == if cancelled then old(state.View()) else Ended(old(state.View()), key, status, note, now)
      ensures state.OnDisk() == if err.None? then Compact(state.View()) else old(state.OnDisk())
      ensures (cancelled ==> err.Some?) && (calm && !cancelled ==> err.None?)
    {
      Disk();
      err := state.End(cancelled, key, status, note, now);
    }

    /** Ends the active collection; refused when the context is cancelled, and then its record stays as it is. */
    method End(key: CollectionKey, status: Status, note: string)
      requires Valid() && w.active == Some(key) && w.jobs == map[] && status in {Succeeded, Failed} && key in w.mem.collections
      modifies this, state, state.mem
      ensures Valid() && cancelled == old(cancelled) && old(refusals) <= refusals && w.active.None? && w.jobs == map[]
      ensures cancelled ==> w == old(w).(active := None) && old(refusals) < refusals
      ensures !cancelled ==> exists now, saved ::
        w == Saving(old(w), Ended(old(w).mem, key, status, note, now), saved).(active := None)
    {
      var now: Time := *;
      ReachedAgrees(cfg, w);
      ghost var l := Ended(w.mem, key, status, note, now);
      var err := SaveEnd(key, status, note, now);
      if err.Some? { refusals := refusals + 1; }
      if cancelled {
        Take(Abandon, Apply(cfg, w, Abandon));
      } else {
        assert state.View() == l;
        TakeEnd(key, status, note, now, err.None?, l);
      }
    }

    method Drop(key: CollectionKey)
      requires Valid() && w.active.None?
      modifies this, state, state.mem
      ensures Valid() && cancelled == old(cancelled) && old(refusals) <= refusals
      ensures cancelled ==> w == old(w)
      ensures !cancelled ==> exists saved :: w == Saving(old(w), Dropped(old(w).mem, key), saved)
    {
      ReachedAgrees(cfg, w);
      Disk();
      var err := state.Drop(cancelled, key);
      if err.Some? { refusals := refusals + 1; }
      if !cancelled {
        Take(Event.Drop(key, err.None?), Apply(cfg, w, Event.Drop(key, err.None?)));
      }
    }

    method FileCompleted(key: CollectionKey, file: FileIdentity) returns (r: Result<bool, StateError>)
      requires Valid()
      modifies `refusals
      ensures Valid() && r == if cancelled then Failure(Cancelled) else Success(IsCompleted(w.mem, key, file))
      ensures refusals == old(refusals) + (if r.Failure? then 1 else 0)
    {
      r := state.mem.FileCompleted(cancelled, key, file);
      if r.Failure? { refusals := refusals + 1; }
    }

    method MarkFileFailed(key: CollectionKey, file: FileIdentity, error: string)
      requires Valid() && w.active == Some(key) && file.source == key.source
      modifies this, state, state.mem
      ensures Valid() && cancelled == old(cancelled) && old(refusals) <= refusals
      ensures cancelled ==> w == old(w)
      ensures !cancelled ==> exists now, saved :: w == Saving(old(w), FileFailed(old(w).mem, key, file, error, now), saved)
    {
      var now: Time := *;
      ReachedAgrees(cfg, w);
      ghost var l := FileFailed(w.mem, key, file, error, now);
      Disk();
      var err := state.MarkFileFailed(cancelled, key, file, error, now);
      if err.Some? { refusals := refusals + 1; }
      if !cancelled {
        assert state.View() == l;
        TakeMarkFailed(key, file, error, now, err.None?, l);
      }
    }

    method SaveMark(key: CollectionKey, file: FileIdentity, records: nat, now: Time) returns (err: Option<StateError>)
      requires state.Valid() && key in state.View().collections && file.source == key.source
      modifies state, state.mem
      ensures state.mem.appendMode == old(state.mem.appendMode)
      ensures state.View() == if cancelled then old(state.View()) else Completed(old(state.View()), key, file, records, now)
      ensures state.OnDisk() == if err.None? then Compact(state.View()) else old(state.OnDisk())
      ensures (cancelled ==> err.Some?) && (calm && !cancelled ==> err.None?)
    {
      Disk();
      err := state.MarkFileCompleted(cancelled, key, file, records, now);
    }

    method MarkFileCompleted(key: CollectionKey, file: FileIdentity, records: nat, ghost job: nat) returns (err: Option<StateError>)
      requires Valid() && w.active == Some(key) && file.source == key.source && key in w.mem.collections
      requires job in w.jobs && w.jobs[job] == Job(file, records)
      requires !ContentOf(cfg, file).bad && records == |ContentOf(cfg, file).rows|
      modifies this, state, state.mem
      ensures Valid() && cancelled == old(cancelled) && refusals == old(refusals) + (if err.Some? then 1 else 0)
      ensures cancelled ==> w == old(w) && err.Some?
      ensures !cancelled ==> exists now :: w == Saving(old(w), Completed(old(w).mem, key, file, records, now), err.None?)
    {
      var now: Time := *;
      ReachedAgrees(cfg, w);
      err := SaveMark(key, file, records, now);
      if err.Some? { refusals := refusals + 1; }
      if !cancelled {
        Take(MarkCompleted(job, now, err.None?), Apply(cfg, w, MarkCompleted(job, now, err.None?)));
      }
    }

    method Write(batch: Batch, ghost job: nat) returns (ok: bool)
      requires Valid() && job in w.jobs && IsNextBatch(cfg, w, job, batch)
      modifies this, store
      ensures Valid() && cancelled == old(cancelled) && refusals == old(refusals) + (if ok then 0 else 1)
      ensures ok ==> w == old(w).(store := StoreBatch(old(w).store, batch),
                                  jobs := old(w).jobs[job := Job(batch.file, old(w).jobs[job].sent + |batch.records|)])
      ensures ok ==> store.batches == old(store.batches) + [StoredBatch(batch.key, batch.file, batch.sequence, batch.header, |batch.records|)]
      ensures !ok ==> w == old(w) && store.batches == old(store.batches)
      ensures cancelled ==> !ok
    {
      var refused: bool := *;
      ok := store.Write(cancelled, refused && !calm, batch);
      if !ok { refusals := refusals + 1; }
      if ok {
        Take(WriteBatch(job, batch), Apply(cfg, w, WriteBatch(job, batch)));
      }
    }
  }

  // ---------------------------------------------------------------- the outside world

  // What the source answers when asked for the files of a date.
  datatype Listing = NotFound | Unstable | Unreachable | Listed(files: seq<FileIdentity>)

  // How reading a file goes: whether it can be opened and its metadata and header read, the row at which the stream breaks, and
  // whether the backup copy succeeds.
  datatype Reading = Reading(opens: bool, breaksAt: Option<nat>, backedUp: bool)

  // `reachable`: the source's host, asked before each date but the first. `since`: no clock reading is earlier.
  datatype Outside = Outside(list: CollectionKey -> Listing, read: FileIdentity -> Reading, reachable: nat -> bool, since: Time)

  // The same outside from `now` on.
  function From(o: Outside, now: Time): Outside {
    o.(since := now)
  }

  ghost predicate AlwaysReachable(o: Outside) {
    forall i :: o.reachable(i)
  }

  // Files of a source carry its id.
  ghost predicate ListsOwnFiles(o: Outside) {
    forall k, f {:trigger f in o.list(k).files} :: o.list(k).Listed? && f in o.list(k).files ==> f.source == k.source
  }

  // The number of rows that can be read of so many.
  function Readable(rows: nat, breaksAt: Option<nat>): (n: nat)
    ensures n <= rows
  {
    if breaksAt.Some? && breaksAt.value <= rows then breaksAt.value else rows
  }

  // The rows can be read to their end, and they are well formed.
  predicate ReadsWell(c: Content, breaksAt: Option<nat>) {
    !c.bad && !(breaksAt.Some? && breaksAt.value <= |c.rows|)
  }

  // Nothing but a refused write or save can keep the file from being collected.
  predicate Healthy(cfg: Config, o: Outside, file: FileIdentity) {
    o.read(file).opens && ReadsWell(ContentOf(cfg, file), o.read(file).breaksAt) && o.read(file).backedUp
  }

  // ---------------------------------------------------------------- frames

  // What the ledger holds under other keys is as it was.
  ghost predicate Touched(l: Ledger, l': Ledger, keys: set<CollectionKey>) {
    forall k :: k !in keys ==> At(l, k) == At(l', k)
  }

  lemma TouchedIsOnly(l: Ledger, l': Ledger, keys: set<CollectionKey>)
    requires Touched(l, l', keys)
    ensures OnlyTouched(l, l', keys)
  {
    forall k | k !in keys ensures Find(l.collections, k) == Find(l'.collections, k) { assert At(l, k) == At(l', k); }
  }

  predicate HasFailure(l: Ledger, key: CollectionKey, file: FileIdentity) {
    Identity(file) in Inner(l.failedFiles, key)
  }

  // ---------------------------------------------------------------- one file

  datatype FileResult = FileResult(file: FileIdentity, status: Status, records: nat)

  // The batches that carry the pieces, numbered from one.
  function Audits(key: CollectionKey, file: FileIdentity, header: seq<string>, pieces: seq<seq<Record>>): seq<StoredBatch> {
    seq(|pieces|, i requires 0 <= i < |pieces| => StoredBatch(key, file, i + 1, header, |pieces[i]|))
  }

  // The batches written for the first `n` records of a file.
  function Delivered(cfg: Config, key: CollectionKey, file: FileIdentity, batchSize: nat, n: nat): seq<StoredBatch>
    requires batchSize > 0 && n <= |ContentOf(cfg, file).rows|
  {
    Audits(key, file, ContentOf(cfg, file).header, Cut(Records(ContentOf(cfg, file))[..n], batchSize))
  }

  // The records the batches carry in all.
  function Carried(batches: seq<StoredBatch>): nat {
    if batches == [] then 0 else batches[0].records + Carried(batches[1..])
  }

  lemma {:induction false} CarriedAppend(a: seq<StoredBatch>, b: seq<StoredBatch>)
    ensures Carried(a + b) == Carried(a) + Carried(b)
    decreases |a|
  {
    if a == [] {
      assert a + b == b;
    } else {
      CarriedAppend(a[1..], b);
      assert (a + b)[1..] == a[1..] + b;
    }
  }

  lemma {:induction false} CarriedIsTotal(batches: seq<StoredBatch>, pieces: seq<seq<Record>>)
    requires |batches| == |pieces| && forall i :: 0 <= i < |pieces| ==> batches[i].records == |pieces[i]|
    ensures Carried(batches) == Total(pieces)
    decreases |batches|
  {
    if batches != [] {
      CarriedIsTotal(batches[1..], pieces[1..]);
    }
  }

  /** The batches of the first `n` records carry `n` records. */
  lemma DeliveredCarries(cfg: Config, key: CollectionKey, file: FileIdentity, batchSize: nat, n: nat)
    requires batchSize > 0 && n <= |ContentOf(cfg, file).rows|
    ensures Carried(Delivered(cfg, key, file, batchSize, n)) == n
  {
    var first := Records(ContentOf(cfg, file))[..n];
    CarriedIsTotal(Delivered(cfg, key, file, batchSize, n), Cut(first, batchSize));
    TotalIsLength(Cut(first, batchSize));
    CutConserves(first, batchSize);
  }

  /** They are numbered from one, bear the file's header, and are full but for the last. */
  lemma DeliveredAre(cfg: Config, key: CollectionKey, file: FileIdentity, batchSize: nat, n: nat, i: nat)
    requires batchSize > 0 && n <= |ContentOf(cfg, file).rows| && i < |Delivered(cfg, key, file, batchSize, n)|
    ensures var all := Delivered(cfg, key, file, batchSize, n);
      && all[i] == StoredBatch(key, file, i + 1, ContentOf(cfg, file).header, all[i].records)
      && 1 <= all[i].records <= batchSize && (i < |all| - 1 ==> all[i].records == batchSize)
  {
    CutConserves(Records(ContentOf(cfg, file))[..n], batchSize);
  }

  lemma DeliveredNext(cfg: Config, key: CollectionKey, file: FileIdentity, batchSize: nat, n: nat, m: nat)
    requires batchSize > 0 && n < m <= |ContentOf(cfg, file).rows| && m - n <= batchSize
    requires Full(Records(ContentOf(cfg, file))[..n], batchSize)
    ensures var c := ContentOf(cfg, file);
            Delivered(cfg, key, file, batchSize, m)
            == Delivered(cfg, key, file, batchSize, n)
               + [StoredBatch(key, file, |Delivered(cfg, key, file, batchSize, n)| + 1, c.header, m - n)]
    ensures m - n == batchSize ==> Full(Records(ContentOf(cfg, file))[..m], batchSize)
  {
    var records := Records(ContentOf(cfg, file));
    CutExtends(records[..n], records[n..m], batchSize);
    assert records[..n] + records[n..m] == records[..m];
  }

  // Where the stream of a file stands: so many records written, in full batches only.
  ghost predicate Streaming(svc: Services, key: CollectionKey, file: FileIdentity, batchSize: nat, before: seq<StoredBatch>, written: nat)
    requires batchSize > 0
    reads svc, svc.store
  {
    && svc.w.active == Some(key) && svc.w.jobs == map[0 := Job(file, written)]
    && written <= |ContentOf(svc.cfg, file).rows|
    && svc.store.batches == before + Delivered(svc.cfg, key, file, batchSize, written)
  }

  // The buffer holds the next records to write, behind `n` written ones.
  ghost predicate Buffered(cfg: Config, file: FileIdentity, batchSize: nat, n: nat, records: seq<Record>, sequence: nat)
    requires batchSize > 0
  {
    var all := Records(ContentOf(cfg, file));
    && n + |records| <= |all| && |records| <= batchSize && records == all[n..n + |records|]
    && Full(all[..n], batchSize) && sequence == |Cut(all[..n], batchSize)|
  }

  /** Writes the buffered records as the next batch, if there are any. */
  method Flush(svc: Services, key: CollectionKey, file: FileIdentity, batchSize: nat, header: seq<string>, records: seq<Record>,
               sequence: nat, ghost before: seq<StoredBatch>, ghost n: nat) returns (ok: bool)
    requires svc.Valid() && batchSize > 0 && header == ContentOf(svc.cfg, file).header
    requires Streaming(svc, key, file, batchSize, before, n) && Buffered(svc.cfg, file, batchSize, n, records, sequence)
    modifies svc, svc.store
    ensures svc.Valid() && svc.w.mem == old(svc.w.mem) && svc.w.disk == old(svc.w.disk) && svc.cancelled == old(svc.cancelled)
    ensures Streaming(svc, key, file, batchSize, before, if ok then n + |records| else n)
    ensures svc.refusals == old(svc.refusals) + (if ok then 0 else 1) && (svc.calm ==> ok)
    ensures |records| == batchSize ==> Buffered(svc.cfg, file, batchSize, n + |records|, [], sequence + 1)
  {
    if |records| == 0 {
      return true;
    }
    BatchNext(svc.cfg, key, file, batchSize, header, records, sequence, before, n);
    var batch := Batch(key, file, records, sequence + 1, header);
    assert svc.w.jobs[0] == Job(file, n);
    ok := svc.Write(batch, 0);
    if ok {
      assert svc.w.jobs == map[0 := Job(file, n + |records|)];
    }
  }

  lemma BatchNext(cfg: Config, key: CollectionKey, file: FileIdentity, batchSize: nat, header: seq<string>, records: seq<Record>,
                  sequence: nat, before: seq<StoredBatch>, n: nat)
    requires batchSize > 0 && header == ContentOf(cfg, file).header && records != []
    requires Buffered(cfg, file, batchSize, n, records, sequence)
    ensures before + Delivered(cfg, key, file, batchSize, n) + [StoredBatch(key, file, sequence + 1, header, |records|)]
            == before + Delivered(cfg, key, file, batchSize, n + |records|)
    ensures |records| == batchSize ==> Buffered(cfg, file, batchSize, n + |records|, [], sequence + 1)
  {
    DeliveredNext(cfg, key, file, batchSize, n, n + |records|);
    var sent := Delivered(cfg, key, file, batchSize, n);
    var b := StoredBatch(key, file, sequence + 1, header, |records|);
    assert before + sent + [b] == before + (sent + [b]);
  }

  lemma BufferNext(cfg: Config, file: FileIdentity, batchSize: nat, n: nat, records: seq<Record>, sequence: nat, rec: Record)
    requires batchSize > 0 && Buffered(cfg, file, batchSize, n, records, sequence) && |records| < batchSize
    requires n + |records| < |ContentOf(cfg, file).rows| && rec == Records(ContentOf(cfg, file))[n + |records|]
    ensures Buffered(cfg, file, batchSize, n, records + [rec], sequence)
  {
    var all := Records(ContentOf(cfg, file));
    assert all[n..n + |records| + 1] == all[n..n + |records|] + [all[n + |records|]];
  }

  /** Takes one more record; a full buffer is written. */
  method Push(svc: Services, key: CollectionKey, file: FileIdentity, batchSize: nat, header: seq<string>, records: seq<Record>,
              sequence: nat, written: nat, rec: Record, ghost before: seq<StoredBatch>)
    returns (ok: bool, records': seq<Record>, sequence': nat, written': nat)
    requires svc.Valid() && batchSize > 0 && header == ContentOf(svc.cfg, file).header
    requires Streaming(svc, key, file, batchSize, before, written)
    requires Buffered(svc.cfg, file, batchSize, written, records, sequence) && |records| < batchSize
    requires written + |records| < |ContentOf(svc.cfg, file).rows| && rec == Records(ContentOf(svc.cfg, file))[written + |records|]
    modifies svc, svc.store
    ensures svc.Valid() && svc.w.mem == old(svc.w.mem) && svc.w.disk == old(svc.w.disk) && svc.cancelled == old(svc.cancelled)
    ensures Streaming(svc, key, file, batchSize, before, written') && svc.refusals == old(svc.refusals) + (if ok then 0 else 1)
    ensures ok ==> Buffered(svc.cfg, file, batchSize, written', records', sequence') && |records'| < batchSize
    ensures ok ==> written' + |records'| == written + |records| + 1
  {
    ok, records', sequence', written' := true, records + [rec], sequence, written;
    BufferNext(svc.cfg, file, batchSize, written, records, sequence, rec);
    if |records'| >= batchSize {
      ok := Flush(svc, key, file, batchSize, header, records', sequence, before, written);
      if ok {
        written', records', sequence' := written + |records'|, [], sequence + 1;
      }
    }
  }

  /**
   Reads rows until the stream ends, breaks or a full batch is refused: `n` were read, the buffered ones are not yet written.
   */
  method ReadRows(svc: Services, key: CollectionKey, file: FileIdentity, batchSize: nat, breaksAt: Option<nat>)
    returns (n: nat, records: seq<Record>, sequence: nat, written: nat, ok: bool)
    requires svc.Valid() && batchSize > 0 && svc.w.active == Some(key) && svc.w.jobs == map[0 := Job(file, 0)]
    modifies svc, svc.store
    ensures svc.Valid() && svc.w.mem == old(svc.w.mem) && svc.w.disk == old(svc.w.disk)
    ensures Streaming(svc, key, file, batchSize, old(svc.store.batches), written)
    ensures ok ==> Buffered(svc.cfg, file, batchSize, written, records, sequence) && written + |records| == n
    ensures ok ==> n == Readable(|ContentOf(svc.cfg, file).rows|, breaksAt)
    ensures (old(svc.cancelled) ==> svc.cancelled) && svc.refusals == old(svc.refusals) + (if ok then 0 else 1)
  {
    var content := ContentOf(svc.cfg, file);
    var all := Records(content);
    records, sequence, n, written, ok := [], 0, 0, 0, true;
    while n < |all| && breaksAt != Some(n)
      invariant svc.Valid() && svc.w.mem == old(svc.w.mem) && svc.w.disk == old(svc.w.disk)
      invariant Streaming(svc, key, file, batchSize, old(svc.store.batches), written)
      invariant ok && Buffered(svc.cfg, file, batchSize, written, records, sequence)
      invariant written + |records| == n <= |all| && |records| < batchSize && (breaksAt.Some? ==> breaksAt.value >= n)
      invariant (old(svc.cancelled) ==> svc.cancelled) && svc.refusals == old(svc.refusals)
    {
      svc.Wait();
      ok, records, sequence, written := Push(svc, key, file, batchSize, content.header, records, sequence, written, all[n], old(svc.store.batches));
      if !ok {
        return;
      }
      n := n + 1;
    }
  }

  /**
   Reads the rows of a file into batches. Reading or writing may fail at any row; rows buffered when reading fails are still
   written.
   */
  method StreamRows(svc: Services, key: CollectionKey, file: FileIdentity, batchSize: nat, breaksAt: Option<nat>) returns (written: nat, ok: bool)
    requires svc.Valid() && batchSize > 0 && svc.w.active == Some(key) && svc.w.jobs == map[0 := Job(file, 0)]
    modifies svc, svc.store
    ensures svc.Valid() && svc.w.mem == old(svc.w.mem) && svc.w.disk == old(svc.w.disk)
    ensures Streaming(svc, key, file, batchSize, old(svc.store.batches), written)
    ensures ok ==> ReadsWell(ContentOf(svc.cfg, file), breaksAt) && written == |ContentOf(svc.cfg, file).rows|
    ensures svc.calm || svc.refusals == old(svc.refusals) ==>
      written == Readable(|ContentOf(svc.cfg, file).rows|, breaksAt) && (ok <==> ReadsWell(ContentOf(svc.cfg, file), breaksAt))
    ensures (old(svc.cancelled) ==> svc.cancelled) && old(svc.refusals) <= svc.refusals
  {
    var content := ContentOf(svc.cfg, file);
    var n, records, sequence;
    n, records, sequence, written, ok := ReadRows(svc, key, file, batchSize, breaksAt);
    if !ok {
      return;
    }
    svc.Wait();
    ok := Flush(svc, key, file, batchSize, content.header, records, sequence, old(svc.store.batches), written);
    if ok {
      written := n;
    }
    ok := ok && breaksAt != Some(n) && !content.bad;
  }

  // The files marked done under a key.
  ghost function Marked(l: Ledger, key: CollectionKey): iset<FileIdentity> {
    iset f | IsCompleted(l, key, f)
  }

  // A collection is under way and no file is.
  ghost predicate Collecting(w: World, key: CollectionKey) {
    w.active == Some(key) && w.jobs == map[] && key in w.mem.collections
  }

  /** Records the failure and leaves the file to a later pass. */
  method RecordFailure(svc: Services, key: CollectionKey, file: FileIdentity, records: nat, ghost streaming: bool) returns (fr: FileResult)
    requires svc.Valid() && file.source == key.source && svc.w.active == Some(key) && key in svc.w.mem.collections
    requires if streaming then svc.w.jobs.Keys == {0} else svc.w.jobs == map[]
    modifies svc, svc.state, svc.state.mem
    ensures svc.Valid() && Collecting(svc.w, key) && fr == FileResult(file, Failed, records)
    ensures svc.w.mem.collections == old(svc.w.mem.collections) && Marked(svc.w.mem, key) == old(Marked(svc.w.mem, key))
    ensures Touched(old(svc.w.mem), svc.w.mem, {key}) && (svc.cancelled || HasFailure(svc.w.mem, key, file))
    ensures svc.w.store == old(svc.w.store) && svc.cancelled == old(svc.cancelled) && old(svc.refusals) <= svc.refusals
  {
    svc.MarkFileFailed(key, file, "failed");
    if streaming {
      svc.Take(FinishJob(0), Apply(svc.cfg, svc.w, FinishJob(0)));
    }
    return FileResult(file, Failed, records);
  }

  // What one file's collection leaves behind: the batches of its first rows, its other marks untouched.
  twostate predicate Left(svc: Services, key: CollectionKey, file: FileIdentity, batchSize: nat, records: nat)
    requires batchSize > 0
    reads svc, svc.store
  {
    && svc.w.mem.collections == old(svc.w.mem.collections) && Touched(old(svc.w.mem), svc.w.mem, {key})
    && records <= |ContentOf(svc.cfg, file).rows|
    && svc.store.batches == old(svc.store.batches) + Delivered(svc.cfg, key, file, batchSize, records)
    && old(Marked(svc.w.mem, key)) <= Marked(svc.w.mem, key)
    && (old(svc.cancelled) ==> svc.cancelled) && old(svc.refusals) <= svc.refusals
  }

  lemma CompletedMarks(l: Ledger, key: CollectionKey, file: FileIdentity, records: nat, now: Time)
    requires key in l.collections
    ensures var l' := Completed(l, key, file, records, now);
      l'.collections == l.collections && Marked(l, key) <= Marked(l', key) && IsCompleted(l', key, file) && Touched(l, l', {key})
  {
  }

  method MarkFile(svc: Services, key: CollectionKey, file: FileIdentity, written: nat) returns (err: Option<StateError>)
    requires svc.Valid() && svc.w.active == Some(key) && key in svc.w.mem.collections && file.source == key.source
    requires svc.w.jobs == map[0 := Job(file, written)]
    requires !ContentOf(svc.cfg, file).bad && written == |ContentOf(svc.cfg, file).rows|
    modifies svc, svc.state, svc.state.mem
    ensures svc.Valid() && svc.w.active == Some(key) && svc.w.jobs == old(svc.w.jobs) && svc.w.store == old(svc.w.store)
    ensures svc.w.mem.collections == old(svc.w.mem.collections) && Touched(old(svc.w.mem), svc.w.mem, {key})
    ensures old(Marked(svc.w.mem, key)) <= Marked(svc.w.mem, key) && (err.None? ==> IsCompleted(svc.w.mem, key, file))
    ensures svc.cancelled == old(svc.cancelled) && svc.refusals == old(svc.refusals) + (if err.Some? then 1 else 0) && (svc.cancelled ==> err.Some?)
  {
    assert svc.w.jobs[0] == Job(file, written);
    ghost var l := svc.w.mem;
    err := svc.MarkFileCompleted(key, file, written, 0);
    if !svc.cancelled {
      ghost var now :| svc.w == Saving(old(svc.w), Completed(l, key, file, written, now), err.None?);
      CompletedMarks(l, key, file, written, now);
    }
  }

  /** Marks a fully stored file; it counts as failed when the mark could not be saved. */
  method MarkDone(svc: Services, key: CollectionKey, file: FileIdentity, written: nat) returns (fr: FileResult)
    requires svc.Valid() && svc.w.active == Some(key) && key in svc.w.mem.collections && file.source == key.source
    requires svc.w.jobs == map[0 := Job(file, written)]
    requires !ContentOf(svc.cfg, file).bad && written == |ContentOf(svc.cfg, file).rows|
    modifies svc, svc.state, svc.state.mem
    ensures svc.Valid() && Collecting(svc.w, key) && svc.w.mem.collections == old(svc.w.mem.collections)
    ensures svc.w.store == old(svc.w.store) && svc.cancelled == old(svc.cancelled) && old(svc.refusals) <= svc.refusals
    ensures fr.status == Failed ==> old(svc.refusals) < svc.refusals && (svc.cancelled || HasFailure(svc.w.mem, key, file))
    ensures svc.calm ==> fr.status == Succeeded
    ensures Touched(old(svc.w.mem), svc.w.mem, {key})
    ensures fr == FileResult(file, fr.status, written) && fr.status in {Succeeded, Failed}
    ensures fr.status == Succeeded ==> IsCompleted(svc.w.mem, key, file) && !svc.cancelled
    ensures old(Marked(svc.w.mem, key)) <= Marked(svc.w.mem, key)
  {
    var err := MarkFile(svc, key, file, written);
    if err.Some? {
      fr := RecordFailure(svc, key, file, written, true);
      return;
    }
    svc.Take(FinishJob(0), Apply(svc.cfg, svc.w, FinishJob(0)));
    return FileResult(file, Succeeded, written);
  }

  /** Streams a file that could be opened, and marks it done when all of it is stored. */
  method CollectOpened(svc: Services, key: CollectionKey, file: FileIdentity, batchSize: nat, r: Reading) returns (fr: FileResult)
    requires svc.Valid() && Collecting(svc.w, key) && file.source == key.source && batchSize > 0
    requires !IsCompleted(svc.w.mem, key, file)
    modifies svc.Repr()
    ensures svc.Valid() && Collecting(svc.w, key) && Left(svc, key, file, batchSize, fr.records)
    ensures fr.file == file && fr.status in {Succeeded, Failed}
    ensures fr.status == Succeeded ==> fr.records == |ContentOf(svc.cfg, file).rows| && ReadsWell(ContentOf(svc.cfg, file), r.breaksAt)
    ensures fr.status == Succeeded ==> IsCompleted(svc.w.mem, key, file) && !old(svc.cancelled) && r.backedUp
    ensures fr.status == Failed ==> old(svc.refusals) < svc.refusals || !r.backedUp || !ReadsWell(ContentOf(svc.cfg, file), r.breaksAt)
    ensures fr.status == Failed ==> svc.cancelled || HasFailure(svc.w.mem, key, file)
    ensures svc.refusals == old(svc.refusals) ==> fr.records == Readable(|ContentOf(svc.cfg, file).rows|, r.breaksAt)
  {
    svc.Take(StartFile(0, file), Apply(svc.cfg, svc.w, StartFile(0, file)));
    var written, ok := StreamRows(svc, key, file, batchSize, r.breaksAt);
    // Without a backup copy the file is not marked.
    if !ok || !r.backedUp {
      fr := RecordFailure(svc, key, file, written, true);
      return;
    }
    svc.Wait();
    fr := MarkDone(svc, key, file, written);
  }

  /**
   Collects one file. What it wrote are the batches of the first `records` rows, each full but the last; it succeeds only
   when that is the whole of a well-formed file, or the file was already done, and leaves the file marked.
   */
  method CollectFile(svc: Services, key: CollectionKey, file: FileIdentity, batchSize: nat, o: Outside) returns (fr: FileResult)
    requires svc.Valid() && Collecting(svc.w, key) && file.source == key.source && batchSize > 0
    modifies svc.Repr()
    ensures svc.Valid() && Collecting(svc.w, key) && Left(svc, key, file, batchSize, fr.records)
    ensures Carried(svc.store.batches) == old(Carried(svc.store.batches)) + fr.records
    ensures fr.file == file && fr.status in {Succeeded, Failed}
    ensures fr.status == Succeeded ==> IsCompleted(svc.w.mem, key, file) && !old(svc.cancelled)
    ensures fr.status == Succeeded && old(IsCompleted(svc.w.mem, key, file)) ==> fr.records == 0
    ensures fr.status == Succeeded && !old(IsCompleted(svc.w.mem, key, file)) ==>
      fr.records == |ContentOf(svc.cfg, file).rows| && Healthy(svc.cfg, o, file)
    ensures fr.status == Failed ==> old(svc.refusals) < svc.refusals || (!Healthy(svc.cfg, o, file) && !old(IsCompleted(svc.w.mem, key, file)))
    ensures fr.status == Failed ==> svc.cancelled || HasFailure(svc.w.mem, key, file)
    ensures svc.calm ==> (fr.status == Succeeded <==> old(IsCompleted(svc.w.mem, key, file)) || Healthy(svc.cfg, o, file))
    ensures svc.refusals == old(svc.refusals) && !old(IsCompleted(svc.w.mem, key, file)) ==>
      fr.records == if o.read(file).opens then Readable(|ContentOf(svc.cfg, file).rows|, o.read(file).breaksAt) else 0
  {
    svc.Wait();
    var done := svc.FileCompleted(key, file);
    if done.Failure? {
      fr := RecordFailure(svc, key, file, 0, false);
    } else if done.value {
      fr := FileResult(file, Succeeded, 0);
    } else {
      if o.read(file).opens {
        fr := CollectOpened(svc, key, file, batchSize, o.read(file));
      } else {
        fr := RecordFailure(svc, key, file, 0, false);
      }
    }
    DeliveredCarries(svc.cfg, key, file, batchSize, fr.records);
    CarriedAppend(old(svc.store.batches), Delivered(svc.cfg, key, file, batchSize, fr.records));
  }

  // ---------------------------------------------------------------- one date

  datatype CollectionResult = CollectionResult(key: CollectionKey, status: Status, files: seq<FileResult>, records: nat)

  ghost predicate Idle(w: World) {
    w.active.None? && w.jobs == map[]
  }

  // The records of the files that succeeded.
  function RecordsOf(files: seq<FileResult>): nat {
    if files == [] then 0
    else RecordsOf(files[..|files| - 1]) + (if files[|files| - 1].status == Succeeded then files[|files| - 1].records else 0)
  }

  // The files taken so far were all taken in turn; those that succeeded are marked.
  ghost predicate TakenInTurn(marked: iset<FileIdentity>, files: seq<FileIdentity>, done: seq<FileResult>) {
    && |done| <= |files|
    && (forall i :: 0 <= i < |done| ==> done[i].file == files[i] && done[i].status in {Succeeded, Failed})
    && (forall i :: 0 <= i < |done| && done[i].status == Succeeded ==> files[i] in marked)
  }

  ghost predicate AnyFailed(done: seq<FileResult>) {
    exists i :: 0 <= i < |done| && done[i].status == Failed
  }

  lemma TakenNext(marked: iset<FileIdentity>, marked': iset<FileIdentity>, files: seq<FileIdentity>, done: seq<FileResult>, fr: FileResult)
    requires TakenInTurn(marked, files, done) && |done| < |files| && fr.file == files[|done|] && fr.status in {Succeeded, Failed}
    requires marked <= marked' && (fr.status == Succeeded ==> fr.file in marked')
    ensures TakenInTurn(marked', files, done + [fr])
  {
    var all := done + [fr];
    forall i | 0 <= i < |all| ensures all[i].file == files[i] && all[i].status in {Succeeded, Failed} {
      assert i < |done| ==> all[i] == done[i];
    }
    forall i | 0 <= i < |all| && all[i].status == Succeeded ensures files[i] in marked' {
      assert i < |done| ==> all[i] == done[i] && files[i] in marked;
    }
  }

  // Each file met its own refusals only: `met` counts them up to each file. A healthy one that failed met one itself.
  ghost predicate HealthyTaken(cfg: Config, o: Outside, files: seq<FileIdentity>, done: seq<FileResult>, met: seq<nat>)
    decreases |done|
  {
    && |done| <= |files| && |met| == |done| + 1
    && (done == [] ||
        (var n := |done| - 1;
         HealthyTaken(cfg, o, files, done[..n], met[..|met| - 1]) && met[n] <= met[n + 1]
         && (Healthy(cfg, o, files[n]) && done[n].status == Failed ==> met[n] < met[n + 1])))
  }

  lemma HealthyNext(cfg: Config, o: Outside, files: seq<FileIdentity>, done: seq<FileResult>, met: seq<nat>, fr: FileResult, n: nat)
    requires HealthyTaken(cfg, o, files, done, met) && |done| < |files| && met[|done|] <= n
    requires Healthy(cfg, o, files[|done|]) && fr.status == Failed ==> met[|done|] < n
    ensures HealthyTaken(cfg, o, files, done + [fr], met + [n])
  {
    assert (done + [fr])[..|done|] == done && (met + [n])[..|met|] == met;
  }

  // A healthy file that failed met a refusal of its own, whatever befell the others.
  lemma {:induction false} OwnTrouble(cfg: Config, o: Outside, files: seq<FileIdentity>, done: seq<FileResult>, met: seq<nat>, i: nat)
    requires HealthyTaken(cfg, o, files, done, met) && i < |done| && Healthy(cfg, o, files[i]) && done[i].status == Failed
    ensures met[i] < met[i + 1] && met[0] <= met[i] && met[i + 1] <= met[|done|]
    decreases |done|
  {
    var n := |done| - 1;
    MetGrows(cfg, o, files, done, met, 0, i);
    MetGrows(cfg, o, files, done, met, i + 1, |done|);
    if i < n { OwnTrouble(cfg, o, files, done[..n], met[..|met| - 1], i); }
  }

  lemma {:induction false} MetGrows(cfg: Config, o: Outside, files: seq<FileIdentity>, done: seq<FileResult>, met: seq<nat>, i: nat, j: nat)
    requires HealthyTaken(cfg, o, files, done, met) && i <= j < |met|
    ensures met[i] <= met[j]
    decreases |done|, j
  {
    var n := |done| - 1;
    if i < j {
      if j == |done| {
        MetGrows(cfg, o, files, done[..n], met[..|met| - 1], i, n);
      } else {
        MetGrows(cfg, o, files, done[..n], met[..|met| - 1], i, j);
      }
    }
  }

  lemma RecordsNext(done: seq<FileResult>, fr: FileResult)
    ensures RecordsOf(done + [fr]) == RecordsOf(done) + (if fr.status == Succeeded then fr.records else 0)
  {
    assert (done + [fr])[..|done|] == done;
  }

  lemma FailedNext(done: seq<FileResult>, fr: FileResult)
    ensures AnyFailed(done + [fr]) <==> AnyFailed(done) || fr.status == Failed
  {
    var all := done + [fr];
    assert all[|done|] == fr && forall i :: 0 <= i < |done| ==> all[i] == done[i];
  }

  // What is known of the files taken so far.
  ghost predicate FilesTaken(cfg: Config, o: Outside, mem: Ledger, key: CollectionKey, files: seq<FileIdentity>, done: seq<FileResult>,
                             records: nat, failed: bool, met: seq<nat>) {
    && TakenInTurn(Marked(mem, key), files, done) && records == RecordsOf(done) && (failed <==> AnyFailed(done))
    && HealthyTaken(cfg, o, files, done, met)
  }

  lemma FilesNext(cfg: Config, o: Outside, mem: Ledger, mem': Ledger, key: CollectionKey, files: seq<FileIdentity>, done: seq<FileResult>,
                  records: nat, failed: bool, met: seq<nat>, n: nat, fr: FileResult)
    requires FilesTaken(cfg, o, mem, key, files, done, records, failed, met) && |done| < |files|
    requires fr.file == files[|done|] && fr.status in {Succeeded, Failed} && met[|done|] <= n
    requires Marked(mem, key) <= Marked(mem', key) && (fr.status == Succeeded ==> fr.file in Marked(mem', key))
    requires Healthy(cfg, o, fr.file) && fr.status == Failed ==> met[|done|] < n
    ensures FilesTaken(cfg, o, mem', key, files, done + [fr], records + (if fr.status == Succeeded then fr.records else 0),
                       failed || fr.status == Failed, met + [n])
  {
    TakenNext(Marked(mem, key), Marked(mem', key), files, done, fr);
    RecordsNext(done, fr);
    FailedNext(done, fr);
    HealthyNext(cfg, o, files, done, met, fr, n);
  }

  method TakeFile(svc: Services, key: CollectionKey, files: seq<FileIdentity>, batchSize: nat, o: Outside, done: seq<FileResult>,
                  records: nat, failed: bool, ghost met: seq<nat>, ghost before: seq<StoredBatch>)
    returns (done': seq<FileResult>, records': nat, failed': bool)
    requires svc.Valid() && Collecting(svc.w, key) && batchSize > 0 && |done| < |files| && files[|done|].source == key.source
    requires FilesTaken(svc.cfg, o, svc.w.mem, key, files, done, records, failed, met) && met[|done|] == svc.refusals
    requires svc.store.batches == before + AllWrote(svc.cfg, key, batchSize, done)
    modifies svc.Repr()
    ensures svc.Valid() && Collecting(svc.w, key) && svc.w.mem.collections == old(svc.w.mem.collections)
    ensures Touched(old(svc.w.mem), svc.w.mem, {key}) && |done'| == |done| + 1
    ensures FilesTaken(svc.cfg, o, svc.w.mem, key, files, done', records', failed', met + [svc.refusals])
    ensures svc.store.batches == before + AllWrote(svc.cfg, key, batchSize, done')
    ensures (old(svc.cancelled) ==> svc.cancelled) && old(svc.refusals) <= svc.refusals
  {
    ghost var was := svc.w.mem;
    var fr := CollectFile(svc, key, files[|done|], batchSize, o);
    assert svc.store.batches == old(svc.store.batches) + Wrote(svc.cfg, key, batchSize, fr);
    FilesNext(svc.cfg, o, was, svc.w.mem, key, files, done, records, failed, met, svc.refusals, fr);
    AllWroteNext(svc.cfg, key, batchSize, before, done, fr);
    done', records', failed' := done + [fr], records, failed;
    if fr.status == Failed {
      failed' := true;
    } else {
      records' := records + fr.records;
    }
  }

  /**
   Takes the files one after the other; a failed file does not stop the others and does not make them fail, a cancelled context stops.
   `met`: the refusals up to each file.
   */
  method CollectFiles(svc: Services, key: CollectionKey, files: seq<FileIdentity>, batchSize: nat, o: Outside)
    returns (done: seq<FileResult>, records: nat, failed: bool, ghost met: seq<nat>)
    requires svc.Valid() && Collecting(svc.w, key) && batchSize > 0
    requires forall f :: f in files ==> f.source == key.source
    modifies svc.Repr()
    ensures svc.Valid() && Collecting(svc.w, key) && svc.w.mem.collections == old(svc.w.mem.collections)
    ensures Touched(old(svc.w.mem), svc.w.mem, {key})
    ensures FilesTaken(svc.cfg, o, svc.w.mem, key, files, done, records, failed, met)
    ensures met[0] == old(svc.refusals) && met[|done|] == svc.refusals
    ensures svc.store.batches == old(svc.store.batches) + AllWrote(svc.cfg, key, batchSize, done)
    ensures |done| < |files| ==> svc.cancelled
    ensures (old(svc.cancelled) ==> svc.cancelled) && old(svc.refusals) <= svc.refusals
  {
    done, records, failed, met := [], 0, false, [svc.refusals];
    for i := 0 to |files|
      invariant svc.Valid() && Collecting(svc.w, key) && svc.w.mem.collections == old(svc.w.mem.collections)
      invariant Touched(old(svc.w.mem), svc.w.mem, {key})
      invariant |done| == i && FilesTaken(svc.cfg, o, svc.w.mem, key, files, done, records, failed, met)
      invariant met[0] == old(svc.refusals) && met[i] == svc.refusals
      invariant svc.store.batches == old(svc.store.batches) + AllWrote(svc.cfg, key, batchSize, done)
      invariant (old(svc.cancelled) ==> svc.cancelled) && old(svc.refusals) <= svc.refusals
    {
      svc.Wait();
      if svc.cancelled {
        return;
      }
      assert files[i] in files;
      done, records, failed := TakeFile(svc, key, files, batchSize, o, done, records, failed, met, old(svc.store.batches));
      met := met + [svc.refusals];
    }
  }

  // The batches one file's collection wrote, and those of several.
  function Wrote(cfg: Config, key: CollectionKey, bs: nat, fr: FileResult): seq<StoredBatch> {
    if bs > 0 && fr.records <= |ContentOf(cfg, fr.file).rows| then Delivered(cfg, key, fr.file, bs, fr.records) else []
  }

  function AllWrote(cfg: Config, key: CollectionKey, bs: nat, done: seq<FileResult>): seq<StoredBatch> {
    if done == [] then [] else AllWrote(cfg, key, bs, done[..|done| - 1]) + Wrote(cfg, key, bs, done[|done| - 1])
  }

  lemma AllWroteNext(cfg: Config, key: CollectionKey, bs: nat, before: seq<StoredBatch>, done: seq<FileResult>, fr: FileResult)
    ensures before + AllWrote(cfg, key, bs, done + [fr]) == before + AllWrote(cfg, key, bs, done) + Wrote(cfg, key, bs, fr)
  {
    assert (done + [fr])[..|done|] == done;
    assert before + AllWrote(cfg, key, bs, done) + Wrote(cfg, key, bs, fr) == before + (AllWrote(cfg, key, bs, done) + Wrote(cfg, key, bs, fr));
  }

  /**
   The records a result counts are those its batches carry, less those of files that failed: the counts agree exactly when no
   failed file wrote anything.
   */
  lemma {:induction false} CountedIffWritten(cfg: Config, key: CollectionKey, bs: nat, done: seq<FileResult>)
    requires bs > 0 && forall i :: 0 <= i < |done| ==> done[i].records <= |ContentOf(cfg, done[i].file).rows|
    ensures var carried := Carried(AllWrote(cfg, key, bs, done));
      && RecordsOf(done) <= carried
      && (RecordsOf(done) == carried <==> forall i :: 0 <= i < |done| && done[i].status != Succeeded ==> done[i].records == 0)
    decreases |done|
  {
    if done != [] {
      var n := |done| - 1;
      CountedIffWritten(cfg, key, bs, done[..n]);
      DeliveredCarries(cfg, key, done[n].file, bs, done[n].records);
      CarriedAppend(AllWrote(cfg, key, bs, done[..n]), Wrote(cfg, key, bs, done[n]));
      FrontOrLast(done);
    }
  }

  lemma FrontOrLast(done: seq<FileResult>)
    requires done != []
    ensures var n := |done| - 1;
      (forall i :: 0 <= i < |done| && done[i].status != Succeeded ==> done[i].records == 0)
      <==> (forall i :: 0 <= i < n && done[..n][i].status != Succeeded ==> done[..n][i].records == 0)
           && (done[n].status != Succeeded ==> done[n].records == 0)
  {
    assert forall i :: 0 <= i < |done| - 1 ==> done[..|done| - 1][i] == done[i];
  }

  // What a date's collection leaves behind, by what the source answered.
  ghost predicate Outcome(cfg: Config, o: Outside, bs: nat, t: Taken, key: CollectionKey) {
    match o.list(key)
    case NotFound =>
      && t.res.Some? && t.res.value.status == Skipped && t.after.batches == t.before.batches
      && (t.after.w.mem == Dropped(t.before.w.mem, key) || (t.cancelled && t.after.w == t.before.w))
    case Unstable => t.res.Some? && t.res.value.status == Pending && t.after == t.before
    case Unreachable =>
      t.res.Some? && t.res.value.status == Failed && t.after.batches == t.before.batches && NotCollected(cfg, o.since, t, key)
    case Listed(files) =>
      if files == [] then
        t.res.Some? && t.res.value.status == Skipped && t.after == t.before
      else if t.res.None? then t.after == t.before && HeldBack(cfg, o.since, t.before.w.mem, key)
      else Collected(cfg, o, bs, t, key, files, t.res.value)
  }

  // One date of a pass: what was seen before and after it, whether the context was cancelled by then, the refusals up to each of its
  // files, and its result.
  datatype Taken = Taken(before: Scene, after: Scene, cancelled: bool, met: seq<nat>, res: Option<CollectionResult>)

  // The date met a refusal itself.
  predicate Trouble(t: Taken) {
    t.before.refusals < t.after.refusals
  }

  // The failure of the listing is recorded, unless the record is not to be had or cannot be written.
  ghost predicate NotCollected(cfg: Config, since: Time, t: Taken, key: CollectionKey) {
    || Trouble(t)
    || (t.after.w == t.before.w && HeldBack(cfg, since, t.before.w.mem, key))
    || (key in t.after.w.mem.collections && t.after.w.mem.collections[key].status == Failed)
  }

  // A success stands for every listed file; a healthy file fails only for a refusal of its own, and files are left out only for a
  // refused record or a cancelled context; short of these the record says what the result says.
  ghost predicate Collected(cfg: Config, o: Outside, bs: nat, t: Taken, key: CollectionKey, files: seq<FileIdentity>, res: CollectionResult) {
    && res.status in {Succeeded, Failed}
    && TakenInTurn(Marked(t.after.w.mem, key), files, res.files) && res.records == RecordsOf(res.files)
    && (res.status == Succeeded <==> |res.files| == |files| && forall i :: 0 <= i < |files| ==> res.files[i].status == Succeeded)
    && HealthyTaken(cfg, o, files, res.files, t.met)
    && t.before.refusals <= t.met[0] && t.met[|res.files|] <= t.after.refusals
    && (|res.files| == |files| || (res.files == [] && Trouble(t)) || (t.cancelled && Trouble(t)))
    && (!Trouble(t) ==> key in t.after.w.mem.collections && t.after.w.mem.collections[key].status == res.status)
    && (res.files != [] && !t.cancelled ==> key in t.after.w.mem.collections && t.after.w.mem.collections[key].status == res.status)
    && t.after.batches == t.before.batches + AllWrote(cfg, key, bs, res.files)
  }

  method EndGranted(svc: Services, key: CollectionKey, status: Status)
    requires svc.Valid() && Collecting(svc.w, key) && status in {Succeeded, Failed}
    modifies svc, svc.state, svc.state.mem
    ensures svc.Valid() && Idle(svc.w) && Touched(old(svc.w.mem), svc.w.mem, {key})
    ensures old(Marked(svc.w.mem, key)) <= Marked(svc.w.mem, key)
    ensures svc.cancelled == old(svc.cancelled) && old(svc.refusals) <= svc.refusals && (svc.cancelled ==> old(svc.refusals) < svc.refusals)
    ensures !svc.cancelled ==> key in svc.w.mem.collections && svc.w.mem.collections[key].status == status
  {
    ghost var marked := Marked(svc.w.mem, key);
    svc.End(key, status, "");
    assert Marked(svc.w.mem, key) == marked;
  }

  // The files were taken, with `l` left in the ledger, and the record was ended accordingly or the end was refused.
  lemma GrantedIsCollected(cfg: Config, o: Outside, bs: nat, t: Taken, key: CollectionKey, files: seq<FileIdentity>, res: CollectionResult,
                           l: Ledger, failed: bool)
    requires FilesTaken(cfg, o, l, key, files, res.files, res.records, failed, t.met)
    requires res.status == if failed || |res.files| < |files| then Failed else Succeeded
    requires Marked(l, key) <= Marked(t.after.w.mem, key) && (|res.files| < |files| ==> t.cancelled) && (t.cancelled ==> Trouble(t))
    requires !t.cancelled ==> key in t.after.w.mem.collections && t.after.w.mem.collections[key].status == res.status
    requires t.before.refusals <= t.met[0] && t.met[|res.files|] <= t.after.refusals
    requires t.after.batches == t.before.batches + AllWrote(cfg, key, bs, res.files)
    ensures Collected(cfg, o, bs, t, key, files, res)
  {
  }

  /** Collects the files of a date whose record was granted, and ends the record. */
  method CollectGranted(svc: Services, key: CollectionKey, files: seq<FileIdentity>, batchSize: nat, o: Outside, ghost before: Scene)
    returns (res: CollectionResult, ghost met: seq<nat>)
    requires svc.Valid() && Collecting(svc.w, key) && batchSize > 0 && files != []
    requires forall f :: f in files ==> f.source == key.source
    requires before.refusals <= svc.refusals && before.batches == svc.store.batches
    modifies svc.Repr()
    ensures svc.Valid() && Idle(svc.w) && Touched(old(svc.w.mem), svc.w.mem, {key})
    ensures res.key == key && Collected(svc.cfg, o, batchSize, Taken(before, svc.Seen(), svc.cancelled, met, Some(res)), key, files, res)
    ensures (old(svc.cancelled) ==> svc.cancelled) && old(svc.refusals) <= svc.refusals
  {
    var done, records, failed;
    done, records, failed, met := CollectFiles(svc, key, files, batchSize, o);
    svc.Wait();
    var status := if failed || |done| < |files| then Failed else Succeeded;
    ghost var l := svc.w.mem;
    EndGranted(svc, key, status);
    res := CollectionResult(key, status, done, records);
    GrantedIsCollected(svc.cfg, o, batchSize, Taken(before, svc.Seen(), svc.cancelled, met, Some(res)), key, files, res, l, failed);
  }

  method CollectListed(svc: Services, key: CollectionKey, files: seq<FileIdentity>, batchSize: nat, o: Outside)
    returns (res: Option<CollectionResult>, ghost met: seq<nat>)
    requires svc.Valid() && Idle(svc.w) && batchSize > 0 && files != []
    requires forall f :: f in files ==> f.source == key.source
    modifies svc.Repr()
    ensures svc.Valid() && Idle(svc.w) && Touched(old(svc.w.mem), svc.w.mem, {key})
    ensures res.None? ==> svc.Seen() == old(svc.Seen()) && HeldBack(svc.cfg, o.since, old(svc.w).mem, key)
    ensures res.Some? ==> res.value.key == key
    ensures res.Some? ==>
      Collected(svc.cfg, o, batchSize, Taken(old(svc.Seen()), svc.Seen(), svc.cancelled, met, res), key, files, res.value)
    ensures (old(svc.cancelled) ==> svc.cancelled) && old(svc.refusals) <= svc.refusals
  {
    svc.Wait();
    ghost var before := svc.Seen();
    var ok, err := svc.Begin(key, o.since);
    if err.Some? {
      return Some(CollectionResult(key, Failed, [], 0)), [svc.refusals];
    }
    if !ok {
      return None, [];
    }
    var granted;
    granted, met := CollectGranted(svc, key, files, batchSize, o, before);
    res := Some(granted);
  }

  // Records that the source could not be asked, if the record is to be had.
  method ListFailed(svc: Services, key: CollectionKey, since: Time)
    requires svc.Valid() && Idle(svc.w)
    modifies svc.Repr()
    ensures svc.Valid() && Idle(svc.w) && Touched(old(svc.w.mem), svc.w.mem, {key})
    ensures NotCollected(svc.cfg, since, Taken(old(svc.Seen()), svc.Seen(), svc.cancelled, [], None), key)
    ensures svc.store.batches == old(svc.store.batches)
    ensures svc.cancelled == old(svc.cancelled) && old(svc.refusals) <= svc.refusals
  {
    var ok, err := svc.Begin(key, since);
    if err.None? && ok {
      svc.End(key, Failed, "source list failed");
    }
  }

  /** Asks the source first: a date without evidence of data gets no record. */
  method CollectOne(svc: Services, key: CollectionKey, batchSize: nat, o: Outside)
    returns (res: Option<CollectionResult>, ghost met: seq<nat>)
    requires svc.Valid() && Idle(svc.w) && batchSize > 0 && ListsOwnFiles(o)
    modifies svc.Repr()
    ensures svc.Valid() && Idle(svc.w) && Touched(old(svc.w.mem), svc.w.mem, {key})
    ensures res.Some? ==> res.value.key == key
    ensures Outcome(svc.cfg, o, batchSize, Taken(old(svc.Seen()), svc.Seen(), svc.cancelled, met, res), key)
    ensures (old(svc.cancelled) ==> svc.cancelled) && old(svc.refusals) <= svc.refusals
  {
    svc.Wait();
    match o.list(key) {
      case NotFound =>
        svc.Drop(key);
        return Some(CollectionResult(key, Skipped, [], 0)), [];
      case Unstable =>
        return Some(CollectionResult(key, Pending, [], 0)), [];
      case Unreachable =>
        ListFailed(svc, key, o.since);
        return Some(CollectionResult(key, Failed, [], 0)), [];
      case Listed(files) =>
        if files == [] {
          var st := svc.state.mem.StatusOf(key);
          if st == Some(Skipped) || st == Some(Pending) {
            svc.Drop(key);
            // Records of this version are never left so.
            ReachedInv(svc.cfg, old(svc.w));
            assert false;
          }
          return Some(CollectionResult(key, Skipped, [], 0)), [];
        }
        res, met := CollectListed(svc, key, files, batchSize, o);
    }
  }

  // ---------------------------------------------------------------- one pass

  datatype Settings = Settings(source: SourceID, batchSize: int, catchupDays: int, since: Option<CollectionDate>)

  function BatchSize(s: Settings): nat {
    if s.batchSize <= 0 then 1000 else s.batchSize
  }

  predicate TooEarly(since: Option<CollectionDate>, d: CollectionDate) {
    since.Some? && Before(d, since.value)
  }

  // The dates of a pass, oldest first: what the planner plans from `since` on, and the target in any case.
  ghost predicate IsPass(l: Ledger, s: Settings, target: CollectionDate, now: Time, plan: seq<CollectionKey>) {
    Ascending(plan) && exists last :: PassAfter(l, last, s, target, now, plan)
  }

  ghost predicate PassAfter(l: Ledger, last: Option<CollectionDate>, s: Settings, target: CollectionDate, now: Time, plan: seq<CollectionKey>) {
    && IsLastCompleted(l, s.source, target, last)
    && forall k :: k in plan <==> InPass(l, last, s, target, now, k)
  }

  predicate InPass(l: Ledger, last: Option<CollectionDate>, s: Settings, target: CollectionDate, now: Time, k: CollectionKey) {
    || k == CollectionKey(s.source, target)
    || (IsPlanned(l, last, s.source, target, s.catchupDays, now, k) && !TooEarly(s.since, k.date))
  }

  function FirstKeys(plan: seq<CollectionKey>, n: nat): set<CollectionKey>
    requires n <= |plan|
  {
    set i | 0 <= i < n :: plan[i]
  }

  lemma SortedPlanIsPass(l: Ledger, s: Settings, target: CollectionDate, now: Time, keys: seq<CollectionKey>, plan: seq<CollectionKey>)
    requires IsPlan(l, s.source, target, s.catchupDays, now, keys) && Ascending(plan)
    requires forall k :: k in plan <==> k == CollectionKey(s.source, target) || (k in keys && !TooEarly(s.since, k.date))
    ensures IsPass(l, s, target, now, plan)
  {
    var last :| PlanAfter(l, last, s.source, target, s.catchupDays, now, keys);
    assert PassAfter(l, last, s, target, now, plan);
  }

  /** The dates of a pass are the target and, from `since` on, the unfinished dates and those that are owed. */
  lemma PassIsOwed(l: Ledger, s: Settings, target: CollectionDate, now: Time, plan: seq<CollectionKey>)
    requires IsPass(l, s, target, now, plan)
    ensures exists last :: IsLastCompleted(l, s.source, target, last) && forall k :: k in plan <==>
      || (k.source == s.source && k.date == target)
      || ((s.since.Some? ==> DayNumber(k.date) >= DayNumber(s.since.value))
          && (IsIncomplete(l, k, s.source, target, STALE_AFTER, now) || IsOwed(last, s.source, target, s.catchupDays, k)))
  {
    var last :| PassAfter(l, last, s, target, now, plan);
    forall k ensures InPass(l, last, s, target, now, k) <==>
      || (k.source == s.source && k.date == target)
      || ((s.since.Some? ==> DayNumber(k.date) >= DayNumber(s.since.value))
          && (IsIncomplete(l, k, s.source, target, STALE_AFTER, now) || IsOwed(last, s.source, target, s.catchupDays, k)))
    {
      WindowIsOwed(last, s.source, target, s.catchupDays, k);
      if s.since.Some? { CompareIsDayOrder(k.date, s.since.value); }
    }
  }

  /** Filters and sorts the planner's keys, and adds the target. */
  method SortPass(keys: seq<CollectionKey>, s: Settings, target: CollectionDate) returns (plan: seq<CollectionKey>)
    requires NoRepeats(keys) && forall k :: k in keys ==> k.source == s.source
    requires !TooEarly(s.since, target)
    ensures Ascending(plan)
    ensures forall k :: k in plan <==> k == CollectionKey(s.source, target) || (k in keys && !TooEarly(s.since, k.date))
  {
    plan := [];
    var hasTarget := false;
    for i := 0 to |keys|
      invariant Ascending(plan) && (hasTarget <==> CollectionKey(s.source, target) in plan)
      invariant forall k :: k in plan <==> k in keys[..i] && !TooEarly(s.since, k.date)
    {
      assert keys[..i + 1] == keys[..i] + [keys[i]];
      if !TooEarly(s.since, keys[i].date) {
        forall x | x in plan ensures x.date != keys[i].date { assert x in keys && keys[i] in keys; }
        InsertKeepsOrder(plan, keys[i]);
        plan := Insert(plan, keys[i]);
        if keys[i].date == target {
          hasTarget := true;
        }
      }
    }
    assert keys[..|keys|] == keys;
    if !hasTarget {
      forall x | x in plan ensures x.date != target { assert x in keys; }
      InsertKeepsOrder(plan, CollectionKey(s.source, target));
      plan := Insert(plan, CollectionKey(s.source, target));
    }
  }

  // How a pass ends short of success: the context was cancelled, or it went through and collections of some dates failed.
  datatype PassError = Stopped(error: StateError) | CollectionsFailed(keys: seq<CollectionKey>)

  // The dates whose collection failed, in order.
  function FailedKeys(results: seq<CollectionResult>): seq<CollectionKey> {
    if results == [] then []
    else FailedKeys(results[..|results| - 1]) + (if results[|results| - 1].status == Failed then [results[|results| - 1].key] else [])
  }

  lemma FailedKeysNext(results: seq<CollectionResult>, r: CollectionResult)
    ensures FailedKeys(results + [r]) == FailedKeys(results) + (if r.status == Failed then [r.key] else [])
  {
    assert (results + [r])[..|results|] == results;
  }

  /** A date is reported exactly when its collection failed. */
  lemma {:induction false} ReportedIffFailed(results: seq<CollectionResult>, k: CollectionKey)
    ensures k in FailedKeys(results) <==> exists i :: 0 <= i < |results| && results[i].status == Failed && results[i].key == k
    decreases |results|
  {
    if results != [] {
      var n := |results| - 1;
      ReportedIffFailed(results[..n], k);
      assert forall i :: 0 <= i < n ==> results[..n][i] == results[i];
    }
  }

  // The error of a pass that was not stopped.
  function JoinedError(results: seq<CollectionResult>): Option<PassError> {
    if FailedKeys(results) == [] then None else Some(CollectionsFailed(FailedKeys(results)))
  }

  // What a pass returns for the dates taken: their results in order, without those another grant held back.
  function ResultsOf(taken: seq<Taken>): seq<CollectionResult> {
    if taken == [] then []
    else ResultsOf(taken[..|taken| - 1]) + (if taken[|taken| - 1].res.Some? then [taken[|taken| - 1].res.value] else [])
  }

  // The dates of the plan were taken in turn, each from the world the one before left, and each came out as it should.
  ghost predicate PassTaken(cfg: Config, o: Outside, bs: nat, start: Scene, plan: seq<CollectionKey>, taken: seq<Taken>, end: Scene)
    decreases |taken|
  {
    && |taken| <= |plan|
    && if taken == [] then end == start else
         var n := |taken| - 1;
         && PassTaken(cfg, o, bs, start, plan, taken[..n], taken[n].before) && taken[n].after == end
         && (n > 0 ==> !taken[n - 1].cancelled)
         && Outcome(cfg, o, bs, taken[n], plan[n]) && Touched(taken[n].before.w.mem, taken[n].after.w.mem, {plan[n]})
  }

  lemma PassNext(cfg: Config, o: Outside, bs: nat, start: Scene, plan: seq<CollectionKey>, taken: seq<Taken>, mid: Scene, t: Taken)
    requires PassTaken(cfg, o, bs, start, plan, taken, mid) && |taken| < |plan|
    requires t.before == mid && Outcome(cfg, o, bs, t, plan[|taken|]) && Touched(mid.w.mem, t.after.w.mem, {plan[|taken|]})
    requires taken != [] ==> !taken[|taken| - 1].cancelled
    ensures PassTaken(cfg, o, bs, start, plan, taken + [t], t.after)
    ensures ResultsOf(taken + [t]) == ResultsOf(taken) + (if t.res.Some? then [t.res.value] else [])
  {
    assert (taken + [t])[..|taken|] == taken;
  }

  lemma {:induction false} PassOutcome(cfg: Config, o: Outside, bs: nat, start: Scene, plan: seq<CollectionKey>, taken: seq<Taken>, end: Scene, i: nat)
    requires PassTaken(cfg, o, bs, start, plan, taken, end) && i < |taken|
    ensures Outcome(cfg, o, bs, taken[i], plan[i]) && taken[i].before == SceneAfter(start, taken, i)
    decreases |taken|
  {
    var n := |taken| - 1;
    if i < n {
      PassOutcome(cfg, o, bs, start, plan, taken[..n], taken[n].before, i);
    }
  }

  // No date met any trouble.
  ghost predicate Untroubled(taken: seq<Taken>) {
    forall i :: 0 <= i < |taken| ==> !Trouble(taken[i]) && !taken[i].cancelled
  }

  // What is seen after the first `n` dates.
  function SceneAfter(start: Scene, taken: seq<Taken>, n: nat): Scene
    requires n <= |taken|
  {
    if n == 0 then start else taken[n - 1].after
  }

  /** Until a date is taken, and after it was, nothing changes under its key. */
  lemma {:induction false} OnlyItsDate(cfg: Config, o: Outside, bs: nat, start: Scene, plan: seq<CollectionKey>, taken: seq<Taken>, end: Scene,
                                       k: CollectionKey, m: nat, n: nat)
    requires PassTaken(cfg, o, bs, start, plan, taken, end) && m <= n <= |taken|
    requires forall i :: m <= i < n ==> plan[i] != k
    ensures At(SceneAfter(start, taken, m).w.mem, k) == At(SceneAfter(start, taken, n).w.mem, k)
    decreases |taken|
  {
    if m < n {
      var last := |taken| - 1;
      OnlyItsDate(cfg, o, bs, start, plan, taken[..last], taken[last].before, k, m, if n <= last then n else last);
      if n == |taken| {
        assert SceneAfter(start, taken[..last], last) == taken[last].before;
        assert At(taken[last].before.w.mem, k) == At(taken[last].after.w.mem, k);
      }
    }
  }

  /** A pass touches only the keys of the dates it takes. */
  lemma PassTouches(cfg: Config, o: Outside, bs: nat, start: Scene, plan: seq<CollectionKey>, taken: seq<Taken>, end: Scene)
    requires PassTaken(cfg, o, bs, start, plan, taken, end)
    ensures Touched(start.w.mem, end.w.mem, FirstKeys(plan, |taken|)) && OnlyTouched(start.w.mem, end.w.mem, FirstKeys(plan, |taken|))
  {
    forall k | k !in FirstKeys(plan, |taken|) ensures At(start.w.mem, k) == At(end.w.mem, k) {
      assert SceneAfter(start, taken, |taken|) == end;
      OnlyItsDate(cfg, o, bs, start, plan, taken, end, k, 0, |taken|);
    }
    TouchedIsOnly(start.w.mem, end.w.mem, FirstKeys(plan, |taken|));
  }

  // What is known of the dates taken so far.
  ghost predicate DatesTaken(cfg: Config, o: Outside, bs: nat, start: Scene, plan: seq<CollectionKey>, taken: seq<Taken>, w: Scene,
                             results: seq<CollectionResult>, failed: seq<CollectionKey>, calm: bool) {
    && PassTaken(cfg, o, bs, start, plan, taken, w) && results == ResultsOf(taken) && failed == FailedKeys(results)
    && (calm ==> Untroubled(taken))
  }

  lemma DatesNext(cfg: Config, o: Outside, bs: nat, start: Scene, plan: seq<CollectionKey>, taken: seq<Taken>, mid: Scene, results: seq<CollectionResult>,
                  failed: seq<CollectionKey>, calm: bool, t: Taken)
    requires DatesTaken(cfg, o, bs, start, plan, taken, mid, results, failed, calm) && |taken| < |plan| && t.before == mid
    requires Outcome(cfg, o, bs, t, plan[|taken|]) && Touched(mid.w.mem, t.after.w.mem, {plan[|taken|]}) && (calm ==> !Trouble(t) && !t.cancelled)
    requires taken != [] ==> !taken[|taken| - 1].cancelled
    ensures t.res.None? ==> DatesTaken(cfg, o, bs, start, plan, taken + [t], t.after, results, failed, calm)
    ensures t.res.Some? ==> DatesTaken(cfg, o, bs, start, plan, taken + [t], t.after, results + [t.res.value],
                                       if t.res.value.status == Failed then failed + [t.res.value.key] else failed, calm)
  {
    PassNext(cfg, o, bs, start, plan, taken, mid, t);
    if t.res.Some? { FailedKeysNext(results, t.res.value); }
  }

  /** Takes the next date of the plan. */
  method TakeDate(svc: Services, key: CollectionKey, batchSize: nat, o: Outside, ghost start: Scene, ghost plan: seq<CollectionKey>,
                  results: seq<CollectionResult>, failed: seq<CollectionKey>, ghost taken: seq<Taken>)
    returns (results': seq<CollectionResult>, failed': seq<CollectionKey>, ghost taken': seq<Taken>)
    requires svc.Valid() && Idle(svc.w) && batchSize > 0 && ListsOwnFiles(o) && |taken| < |plan| && key == plan[|taken|]
    requires DatesTaken(svc.cfg, o, batchSize, start, plan, taken, svc.Seen(), results, failed, svc.calm)
    requires taken != [] ==> !taken[|taken| - 1].cancelled
    modifies svc.Repr()
    ensures svc.Valid() && Idle(svc.w) && |taken'| == |taken| + 1
    ensures DatesTaken(svc.cfg, o, batchSize, start, plan, taken', svc.Seen(), results', failed', svc.calm)
    ensures (old(svc.cancelled) ==> svc.cancelled) && (taken'[|taken|].cancelled ==> svc.cancelled)
  {
    ghost var before := svc.Seen();
    var res;
    ghost var met;
    res, met := CollectOne(svc, key, batchSize, o);
    ghost var t := Taken(before, svc.Seen(), svc.cancelled, met, res);
    DatesNext(svc.cfg, o, batchSize, start, plan, taken, before, results, failed, svc.calm, t);
    results', failed', taken' := results, failed, taken + [t];
    if res.Some? {
      results' := results + [res.value];
      if res.value.status == Failed {
        failed' := failed + [res.value.key];
      }
    }
  }

  // Where a pass stands: the dates taken so far, and that a cancelled context stops it.
  ghost predicate Passing(svc: Services, o: Outside, bs: nat, start: Scene, plan: seq<CollectionKey>, taken: seq<Taken>,
                          results: seq<CollectionResult>, failed: seq<CollectionKey>)
    reads svc, svc.store
  {
    && DatesTaken(svc.cfg, o, bs, start, plan, taken, svc.Seen(), results, failed, svc.calm)
    && (taken != [] && taken[|taken| - 1].cancelled ==> svc.cancelled)
  }

  // One turn of the loop over the dates: it stops, defers the rest, or takes the next date.
  method NextDate(svc: Services, keys: seq<CollectionKey>, batchSize: nat, o: Outside, ghost start: Scene, i: nat,
                  results: seq<CollectionResult>, failed: seq<CollectionKey>, ghost taken: seq<Taken>)
    returns (results': seq<CollectionResult>, failed': seq<CollectionKey>, stopped: bool, skipRest: bool, ghost taken': seq<Taken>)
    requires svc.Valid() && Idle(svc.w) && batchSize > 0 && ListsOwnFiles(o) && i < |keys| && |taken| == i
    requires Passing(svc, o, batchSize, start, keys, taken, results, failed)
    modifies svc.Repr()
    ensures svc.Valid() && Idle(svc.w) && Passing(svc, o, batchSize, start, keys, taken', results', failed')
    ensures |taken'| == if stopped || skipRest then i else i + 1
    ensures (stopped ==> svc.cancelled) && (old(svc.cancelled) ==> svc.cancelled && stopped)
    ensures if skipRest then !stopped && 0 < i && !o.reachable(i) else !stopped ==> i == 0 || o.reachable(i)
  {
    results', failed', taken', stopped, skipRest := results, failed, taken, false, false;
    svc.Wait();
    if svc.cancelled {
      stopped := true;
    } else if i > 0 && !o.reachable(i) {
      skipRest := true;
    } else {
      results', failed', taken' := TakeDate(svc, keys[i], batchSize, o, start, keys, results, failed, taken);
    }
  }

  /** Takes the dates in order, until the context is cancelled (`stopped`) or the host of the source is found unreachable. */
  method TakeInOrder(svc: Services, keys: seq<CollectionKey>, batchSize: nat, o: Outside)
    returns (results: seq<CollectionResult>, failed: seq<CollectionKey>, stopped: bool, ghost taken: seq<Taken>)
    requires svc.Valid() && Idle(svc.w) && batchSize > 0 && ListsOwnFiles(o)
    modifies svc.Repr()
    ensures svc.Valid() && Idle(svc.w) && Passing(svc, o, batchSize, old(svc.Seen()), keys, taken, results, failed)
    ensures |taken| <= |keys| && (stopped ==> svc.cancelled) && (old(svc.cancelled) && keys != [] ==> stopped)
    ensures !stopped && |taken| < |keys| ==> 0 < |taken| && !o.reachable(|taken|)
    ensures forall i :: 0 < i < |taken| ==> o.reachable(i)
  {
    results, failed, stopped, taken := [], [], false, [];
    ghost var start := svc.Seen();
    var i, skipRest := 0, false;
    while i < |keys| && !stopped && !skipRest
      invariant svc.Valid() && Idle(svc.w) && |taken| == i <= |keys| && Passing(svc, o, batchSize, start, keys, taken, results, failed)
      invariant (old(svc.cancelled) ==> svc.cancelled && i == 0 && (stopped || !skipRest)) && (stopped ==> svc.cancelled)
      invariant (forall j :: 0 < j < i ==> o.reachable(j)) && (skipRest ==> 0 < i && !o.reachable(i))
      decreases |keys| - i, !stopped, !skipRest
    {
      results, failed, stopped, skipRest, taken := NextDate(svc, keys, batchSize, o, start, i, results, failed, taken);
      if !stopped && !skipRest {
        i := i + 1;
      }
    }
  }

  /** The error is the cancelled context, or joins the failures of the dates taken. */
  method TakeDates(svc: Services, keys: seq<CollectionKey>, batchSize: nat, o: Outside)
    returns (results: seq<CollectionResult>, err: Option<PassError>, ghost taken: seq<Taken>)
    requires svc.Valid() && Idle(svc.w) && batchSize > 0 && ListsOwnFiles(o)
    modifies svc.Repr()
    ensures svc.Valid() && Idle(svc.w) && PassTaken(svc.cfg, o, batchSize, old(svc.Seen()), keys, taken, svc.Seen()) && results == ResultsOf(taken)
    ensures svc.calm ==> Untroubled(taken) && err != Some(Stopped(Cancelled))
    ensures if err == Some(Stopped(Cancelled)) then svc.cancelled else err == JoinedError(results)
    ensures err != Some(Stopped(Cancelled)) && |taken| < |keys| ==> 0 < |taken| && !o.reachable(|taken|)
    ensures forall i :: 0 < i < |taken| ==> o.reachable(i)
    ensures old(svc.cancelled) && keys != [] ==> err == Some(Stopped(Cancelled))
  {
    var failed, stopped;
    results, failed, stopped, taken := TakeInOrder(svc, keys, batchSize, o);
    err := if stopped then Some(Stopped(Cancelled)) else if failed == [] then None else Some(CollectionsFailed(failed));
  }

  /** The dates of a pass, in order; none when the target is too early. */
  method PlanPass(svc: Services, s: Settings, target: CollectionDate, clock: Time) returns (r: Result<seq<CollectionKey>, StateError>)
    requires svc.Valid()
    modifies svc`cancelled
    ensures svc.Valid() && (old(svc.cancelled) ==> svc.cancelled)
    ensures (r.Failure? <==> svc.cancelled) && (svc.calm ==> r.Success?)
    ensures r.Failure? ==> r.error == Cancelled
    ensures r.Success? ==> if TooEarly(s.since, target) then r.value == [] else IsPass(svc.w.mem, s, target, clock, r.value) && r.value != []
  {
    ReachedAgrees(svc.cfg, svc.w);
    var cancelled := svc.cancelled;
    svc.Wait();
    var planned := Plan(svc.state.mem, cancelled, svc.cancelled, s.source, target, s.catchupDays, clock);
    if planned.Failure? {
      return Failure(planned.error);
    }
    if TooEarly(s.since, target) {
      return Success([]);
    }
    var keys := SortPass(planned.value, s, target);
    SortedPlanIsPass(svc.w.mem, s, target, clock, planned.value, keys);
    assert CollectionKey(s.source, target) in keys;
    return Success(keys);
  }

  /**
   One pass: the dates are taken oldest first, and each comes out as the source's answer for it demands. The error is a cancelled
   context or the failures of the dates taken; only an unreachable host defers what is left, never the first date. In a calm
   world with reachable hosts the whole plan is taken, and every file that was due ends up marked, with exactly its records stored;
   so does every healthy file of an unfinished record whose lease is over, as a crash leaves it.
   */
  method Handle(svc: Services, s: Settings, target: CollectionDate, o: Outside)
    returns (results: seq<CollectionResult>, err: Option<PassError>, ghost plan: seq<CollectionKey>, ghost taken: seq<Taken>, now: Time)
    requires svc.Valid() && Idle(svc.w) && ListsOwnFiles(o)
    modifies svc.Repr()
    ensures svc.Valid() && Idle(svc.w) && now >= o.since && PassTaken(svc.cfg, From(o, now), BatchSize(s), old(svc.Seen()), plan, taken, svc.Seen())
    ensures OnlyTouched(old(svc.w.mem), svc.w.mem, FirstKeys(plan, |taken|)) && Touched(old(svc.w.mem), svc.w.mem, FirstKeys(plan, |taken|))
    ensures svc.calm ==> Untroubled(taken) && err != Some(Stopped(Cancelled))
    ensures plan == [] || IsPass(old(svc.w.mem), s, target, now, plan)
    ensures plan == [] ==> err == Some(Stopped(Cancelled)) || TooEarly(s.since, target)
    ensures TooEarly(s.since, target) ==> plan == []
    ensures plan != [] ==> results == ResultsOf(taken)
    ensures if err == Some(Stopped(Cancelled)) then svc.cancelled else err == JoinedError(results)
    ensures old(svc.cancelled) ==> err == Some(Stopped(Cancelled))
    ensures err != Some(Stopped(Cancelled)) && |taken| < |plan| ==> 0 < |taken| && !o.reachable(|taken|)
    ensures forall i :: 0 < i < |taken| ==> o.reachable(i)
    ensures DatesCollect(svc.cfg, From(o, now), old(svc.w.mem), plan, taken, svc.w)
    ensures svc.calm && AlwaysReachable(o) ==> |taken| == |plan| && PassCollects(svc.cfg, From(o, now), old(svc.w.mem), plan, svc.w)
    ensures svc.calm && AlwaysReachable(o) ==> Recovered(svc.cfg, From(o, now), old(svc.w.mem), s, target, svc.w)
    ensures svc.calm && AllWell(svc.cfg, o, plan) ==> err.None?
  {
    var batchSize: nat := if s.batchSize <= 0 then 1000 else s.batchSize;
    results, err, plan, taken := [], None, [], [];
    now := Clock(o.since);
    svc.Wait();
    var planned := PlanPass(svc, s, target, now);
    if planned.Failure? {
      err := Some(Stopped(planned.error));
      return;
    }
    if planned.value == [] {
      TooEarlyForAll(svc.cfg, From(o, now), old(svc.w.mem), s, target, svc.w);
      results := [CollectionResult(CollectionKey(s.source, target), Skipped, [], 0)];
      FailedKeysNext([], results[0]);
      return;
    }
    plan := planned.value;
    results, err, taken := TakeDates(svc, planned.value, batchSize, From(o, now));
    PassTouches(svc.cfg, From(o, now), BatchSize(s), old(svc.Seen()), plan, taken, svc.Seen());
    EachDateCollects(svc.cfg, From(o, now), BatchSize(s), old(svc.Seen()), plan, taken, svc.Seen());
    if svc.calm {
      CalmPass(svc.cfg, From(o, now), BatchSize(s), old(svc.Seen()), s, target, now, plan, taken, svc.Seen());
    }
  }

  /**
   Nothing is lost by stopping early: the dates of a pass that were not attempted are dates of every later pass for the same
   target, however the attempted ones ended.
   */
  lemma DeferredDatesReturn(l: Ledger, l': Ledger, s: Settings, target: CollectionDate, now: Time, now': Time,
                            plan: seq<CollectionKey>, plan': seq<CollectionKey>, tried: nat, i: nat)
    requires IsPass(l, s, target, now, plan) && IsPass(l', s, target, now', plan') && now <= now'
    requires tried <= i < |plan| && OnlyTouched(l, l', FirstKeys(plan, tried))
    ensures plan[i] in plan'
  {
    var last :| PassAfter(l, last, s, target, now, plan);
    var last' :| PassAfter(l', last', s, target, now', plan');
    var u := plan[i];
    assert InPass(l, last, s, target, now, u);
    if u != CollectionKey(s.source, target) {
      forall a | a in FirstKeys(plan, tried)
        ensures IsPlanned(l, last, s.source, target, s.catchupDays, now, a) && Before(a.date, u.date)
      {
        var j :| 0 <= j < tried && plan[j] == a;
        assert a in plan;
        CompareIsDayOrder(a.date, u.date);
        CompareIsDayOrder(u.date, target);
      }
      DeferredIsPlannedAgain(l, l', last, last', FirstKeys(plan, tried), s.source, target, s.catchupDays, now, now', u);
    }
    assert InPass(l', last', s, target, now', u);
  }

  // ---------------------------------------------------------------- a pass without trouble

  // The record can be had at any time from `since` on: it is new, or failed, or has been running for a lease by then.
  predicate Free(cfg: Config, since: Time, l: Ledger, key: CollectionKey) {
    key in l.collections ==>
      match l.collections[key].status
      case Running => since - l.collections[key].startedAt >= LEASE
      case Succeeded => cfg.appendMode
      case _ => true
  }

  ghost predicate StoredExactly(cfg: Config, w: World, file: FileIdentity) {
    multiset(RecordsIn(RowsOf(w.store, Identity(file)))) == multiset(Records(ContentOf(cfg, file)))
  }

  // The file is healthy, and the source lists it for a date whose record can be had.
  ghost predicate Due(cfg: Config, o: Outside, l: Ledger, key: CollectionKey, file: FileIdentity) {
    Free(cfg, o.since, l, key) && o.list(key).Listed? && file in o.list(key).files && Healthy(cfg, o, file)
  }

  // Every file that was due is marked and has each of its records in exactly one row.
  ghost predicate PassCollects(cfg: Config, o: Outside, l: Ledger, plan: seq<CollectionKey>, end: World) {
    forall k, f :: k in plan && Due(cfg, o, l, k, f) ==> Gathered(cfg, end, k, f)
  }

  ghost predicate Gathered(cfg: Config, w: World, key: CollectionKey, file: FileIdentity) {
    IsCompleted(w.mem, key, file) && StoredExactly(cfg, w, file)
  }

  // A date of an ascending plan comes once: its ledger entry is as it was until it is taken, and as that left it to the end.
  lemma TakenOnce(cfg: Config, o: Outside, bs: nat, start: Scene, plan: seq<CollectionKey>, taken: seq<Taken>, end: Scene, i: nat)
    requires PassTaken(cfg, o, bs, start, plan, taken, end) && Ascending(plan) && i < |taken|
    ensures At(start.w.mem, plan[i]) == At(taken[i].before.w.mem, plan[i]) && At(taken[i].after.w.mem, plan[i]) == At(end.w.mem, plan[i])
  {
    forall j | 0 <= j < |plan| && j != i ensures plan[j] != plan[i] {
      CompareIsDayOrder(plan[j].date, plan[i].date);
      CompareIsDayOrder(plan[i].date, plan[j].date);
    }
    PassOutcome(cfg, o, bs, start, plan, taken, end, i);
    OnlyItsDate(cfg, o, bs, start, plan, taken, end, plan[i], 0, i);
    OnlyItsDate(cfg, o, bs, start, plan, taken, end, plan[i], i + 1, |taken|);
    assert SceneAfter(start, taken, |taken|) == end;
  }

  lemma SameMark(l: Ledger, l': Ledger, key: CollectionKey, file: FileIdentity)
    requires At(l, key) == At(l', key) && IsCompleted(l, key, file)
    ensures IsCompleted(l', key, file)
  {
    assert Find(l.collections, key) == Find(l'.collections, key) && Find(l.files, key) == Find(l'.files, key);
  }

  lemma FreeStays(cfg: Config, since: Time, l: Ledger, l': Ledger, key: CollectionKey, now: Time)
    requires At(l, key) == At(l', key) && Free(cfg, since, l, key) && now >= since
    ensures MayBegin(l', key, now, LEASE, cfg.appendMode)
  {
    assert Find(l.collections, key) == Find(l'.collections, key);
  }

  /**
   A file that is due at a date without trouble of its own is marked by the end of the pass, and has exactly its records stored,
   whatever befell the other dates.
   */
  lemma DueIsCollected(cfg: Config, o: Outside, bs: nat, start: Scene, plan: seq<CollectionKey>, taken: seq<Taken>, end: Scene, i: nat, f: FileIdentity)
    requires PassTaken(cfg, o, bs, start, plan, taken, end) && Ascending(plan) && Reached(cfg, end.w)
    requires i < |taken| && !Trouble(taken[i]) && Due(cfg, o, start.w.mem, plan[i], f)
    ensures Gathered(cfg, end.w, plan[i], f)
  {
    var t, key, files := taken[i], plan[i], o.list(plan[i]).files;
    PassOutcome(cfg, o, bs, start, plan, taken, end, i);
    TakenOnce(cfg, o, bs, start, plan, taken, end, i);
    forall now | now >= o.since ensures MayBegin(t.before.w.mem, key, now, LEASE, cfg.appendMode) {
      FreeStays(cfg, o.since, start.w.mem, t.before.w.mem, key, now);
    }
    assert Collected(cfg, o, bs, t, key, files, t.res.value);
    var j :| 0 <= j < |files| && files[j] == f;
    HealthySucceeds(cfg, o, bs, t, key, files, t.res.value, j);
    assert f in Marked(t.after.w.mem, key);
    SameMark(t.after.w.mem, end.w.mem, key, f);
    ReachedInv(cfg, end.w);
    MarkedIsStored(cfg, end.w, key, f);
  }

  lemma HealthySucceeds(cfg: Config, o: Outside, bs: nat, t: Taken, key: CollectionKey, files: seq<FileIdentity>, res: CollectionResult, i: nat)
    requires Collected(cfg, o, bs, t, key, files, res) && !Trouble(t) && i < |files| && Healthy(cfg, o, files[i])
    ensures |res.files| == |files| && res.files[i].status == Succeeded
  {
    if res.files[i].status == Failed {
      OwnTrouble(cfg, o, files, res.files, t.met, i);
      assert false;
    }
  }

  // Every file that was due at a date without trouble of its own is marked and stored exactly.
  ghost predicate DatesCollect(cfg: Config, o: Outside, l: Ledger, plan: seq<CollectionKey>, taken: seq<Taken>, end: World) {
    |taken| <= |plan| &&
    forall i: nat, f :: i < |taken| && !Trouble(taken[i]) && Due(cfg, o, l, plan[i], f) ==> Gathered(cfg, end, plan[i], f)
  }

  lemma EachDateCollects(cfg: Config, o: Outside, bs: nat, start: Scene, plan: seq<CollectionKey>, taken: seq<Taken>, end: Scene)
    requires PassTaken(cfg, o, bs, start, plan, taken, end) && Ascending(plan) && Reached(cfg, end.w)
    ensures DatesCollect(cfg, o, start.w.mem, plan, taken, end.w)
  {
    forall i: nat, f | i < |taken| && !Trouble(taken[i]) && Due(cfg, o, start.w.mem, plan[i], f) ensures Gathered(cfg, end.w, plan[i], f) {
      DueIsCollected(cfg, o, bs, start, plan, taken, end, i, f);
    }
  }

  // Every healthy file listed for an unfinished record of the source up to the target, from its `since` on, that can be had.
  ghost predicate Recovered(cfg: Config, o: Outside, l: Ledger, s: Settings, target: CollectionDate, end: World) {
    forall k, f :: IsLeftOver(l, s, target, k) && Due(cfg, o, l, k, f) ==> Gathered(cfg, end, k, f)
  }

  predicate IsLeftOver(l: Ledger, s: Settings, target: CollectionDate, k: CollectionKey) {
    && k in l.collections && l.collections[k].status != Succeeded
    && k.source == s.source && !After(k.date, target) && !TooEarly(s.since, k.date)
  }

  /** An unfinished record that can be had is in the plan. */
  lemma LeftOverIsPlanned(cfg: Config, l: Ledger, s: Settings, target: CollectionDate, now: Time, plan: seq<CollectionKey>, k: CollectionKey)
    requires LedgerSound(l) && IsPass(l, s, target, now, plan) && IsLeftOver(l, s, target, k) && Free(cfg, now, l, k)
    ensures k in plan
  {
    var last :| PassAfter(l, last, s, target, now, plan);
    assert IsIncomplete(l, k, s.source, target, STALE_AFTER, now);
    assert InPass(l, last, s, target, now, k);
  }

  lemma TooEarlyForAll(cfg: Config, o: Outside, l: Ledger, s: Settings, target: CollectionDate, end: World)
    requires TooEarly(s.since, target)
    ensures Recovered(cfg, o, l, s, target, end)
  {
    forall k | IsLeftOver(l, s, target, k) ensures false {
      CompareIsDayOrder(k.date, target);
      CompareIsDayOrder(target, s.since.value);
      CompareIsDayOrder(k.date, s.since.value);
    }
  }

  /** What the pass collects includes all that an earlier process left unfinished. */
  lemma LeftOversAreCollected(cfg: Config, o: Outside, l: Ledger, s: Settings, target: CollectionDate, plan: seq<CollectionKey>, end: World)
    requires LedgerSound(l) && IsPass(l, s, target, o.since, plan) && PassCollects(cfg, o, l, plan, end)
    ensures Recovered(cfg, o, l, s, target, end)
  {
    forall k, f | IsLeftOver(l, s, target, k) && Due(cfg, o, l, k, f) ensures Gathered(cfg, end, k, f) {
      LeftOverIsPlanned(cfg, l, s, target, o.since, plan, k);
    }
  }

  // The source can be asked about every date, and all it lists is healthy.
  ghost predicate AllWell(cfg: Config, o: Outside, plan: seq<CollectionKey>) {
    forall k :: k in plan ==> !o.list(k).Unreachable? && (o.list(k).Listed? ==> forall f :: f in o.list(k).files ==> Healthy(cfg, o, f))
  }

  /** Without trouble nothing fails that is well. */
  lemma {:induction false} NothingFails(cfg: Config, o: Outside, bs: nat, start: Scene, plan: seq<CollectionKey>, taken: seq<Taken>, end: Scene)
    requires PassTaken(cfg, o, bs, start, plan, taken, end) && Untroubled(taken) && AllWell(cfg, o, plan)
    ensures JoinedError(ResultsOf(taken)) == None
    decreases |taken|
  {
    if taken != [] {
      var n := |taken| - 1;
      NothingFails(cfg, o, bs, start, plan, taken[..n], taken[n].before);
      assert plan[n] in plan;
      WellSucceeds(cfg, o, bs, taken[n], plan[n]);
      var before := ResultsOf(taken[..n]);
      assert FailedKeys(before) == [];
      if taken[n].res.Some? {
        FailedKeysNext(before, taken[n].res.value);
        assert ResultsOf(taken) == before + [taken[n].res.value];
      } else {
        assert ResultsOf(taken) == before;
      }
    }
  }

  lemma WellSucceeds(cfg: Config, o: Outside, bs: nat, t: Taken, key: CollectionKey)
    requires Outcome(cfg, o, bs, t, key) && AllWell(cfg, o, [key]) && !Trouble(t)
    ensures t.res.Some? ==> t.res.value.status != Failed
  {
    assert key in [key];
    if o.list(key).Listed? && o.list(key).files != [] && t.res.Some? {
      var files := o.list(key).files;
      assert Collected(cfg, o, bs, t, key, files, t.res.value);
      forall i | 0 <= i < |files| ensures |t.res.value.files| == |files| && t.res.value.files[i].status == Succeeded {
        assert files[i] in files;
        HealthySucceeds(cfg, o, bs, t, key, files, t.res.value, i);
      }
    }
  }

  lemma DueAreCollected(cfg: Config, o: Outside, bs: nat, start: Scene, plan: seq<CollectionKey>, taken: seq<Taken>, end: Scene)
    requires PassTaken(cfg, o, bs, start, plan, taken, end) && Untroubled(taken) && Ascending(plan) && Reached(cfg, end.w) && |taken| == |plan|
    ensures PassCollects(cfg, o, start.w.mem, plan, end.w)
  {
    forall k, f | k in plan && Due(cfg, o, start.w.mem, k, f) ensures Gathered(cfg, end.w, k, f) {
      var i :| 0 <= i < |plan| && plan[i] == k;
      DueIsCollected(cfg, o, bs, start, plan, taken, end, i, f);
    }
  }

  lemma CalmPass(cfg: Config, o: Outside, bs: nat, start: Scene, s: Settings, target: CollectionDate, now: Time, plan: seq<CollectionKey>,
                 taken: seq<Taken>, end: Scene)
    requires o.since == now && Reached(cfg, start.w) && IsPass(start.w.mem, s, target, now, plan)
    requires PassTaken(cfg, o, bs, start, plan, taken, end) && Untroubled(taken) && Reached(cfg, end.w)
    ensures |taken| == |plan| ==> PassCollects(cfg, o, start.w.mem, plan, end.w) && Recovered(cfg, o, start.w.mem, s, target, end.w)
    ensures AllWell(cfg, o, plan) ==> JoinedError(ResultsOf(taken)) == None
  {
    if |taken| == |plan| {
      ReachedInv(cfg, start.w);
      DueAreCollected(cfg, o, bs, start, plan, taken, end);
      LeftOversAreCollected(cfg, o, start.w.mem, s, target, plan, end.w);
    }
    if AllWell(cfg, o, plan) { NothingFails(cfg, o, bs, start, plan, taken, end); }
  }

  // ---------------------------------------------------------------- a new process

  /** The process died; the next one loads the state file over the same storage. It starts if it can read that file. */
  method Restart(dead: Services, readable: bool, calm: bool) returns (r: Option<Services>)
    requires dead.Valid() && (calm ==> dead.store.failAfter <= 0)
    ensures readable ==> r.Some?
    ensures r.Some? ==> r.value.Valid() && Idle(r.value.w) && fresh(r.value) && fresh(r.value.state) && fresh(r.value.state.mem)
    ensures r.Some? ==> r.value.cfg == dead.cfg && r.value.store == dead.store && r.value.calm == calm
    ensures r.Some? ==> r.value.w.mem == dead.w.disk && r.value.w.store == dead.w.store
  {
    ReachedInv(dead.cfg, dead.w);
    NothingToMigrate(dead.w.disk);
    var writable: bool := *;
    var loaded := FileState.Open(dead.state.disk, readable, writable);
    if loaded.None? {
      return None;
    }
    ReachedStep(dead.cfg, dead.w, Crash);
    ghost var w := Apply(dead.cfg, dead.w, Crash);
    if dead.cfg.appendMode {
      loaded.value.SetAppendMode();
      ghost var saved := loaded.value.OnDisk() == Compact(w.mem);
      ReachedStep(dead.cfg, w, Resave(saved));
      w := Apply(dead.cfg, w, Resave(saved));
    }
    var svc := new Services(dead.cfg, loaded.value, dead.store, calm, w);
    return Some(svc);
  }

  /**
   Crash recovery: a process may die at any point. The next one, when nothing troubles it, collects what the saved ledger shows as
   unfinished, at the latest when a lease has passed since it was begun.
   */
  method Recover(dead: Services, s: Settings, target: CollectionDate, o: Outside) returns (svc: Services)
    requires dead.Valid() && dead.store.failAfter <= 0 && ListsOwnFiles(o)
    modifies dead.store
    ensures svc.Valid() && Idle(svc.w) && svc.cfg == dead.cfg && svc.store == dead.store
    ensures AlwaysReachable(o) ==> Recovered(svc.cfg, o, old(dead.w.disk), s, target, svc.w)
  {
    var next := Restart(dead, true, true);
    svc := next.value;
    ghost var l := svc.w.mem;
    var _, _, _, _, now := Handle(svc, s, target, o);
    if AlwaysReachable(o) {
      RecoveredSooner(svc.cfg, o, now, l, s, target, svc.w);
    }
  }

  // What can be had from some time on can be had from any later time on.
  lemma RecoveredSooner(cfg: Config, o: Outside, now: Time, l: Ledger, s: Settings, target: CollectionDate, end: World)
    requires o.since <= now && Recovered(cfg, From(o, now), l, s, target, end)
    ensures Recovered(cfg, o, l, s, target, end)
  {
    forall k, f | IsLeftOver(l, s, target, k) && Due(cfg, o, l, k, f) ensures Gathered(cfg, end, k, f) {
      assert Due(cfg, From(o, now), l, k, f);
    }
  }
}
