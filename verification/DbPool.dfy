/**
 Connection pools shared by sinks and counted by reference. `World` says who holds what; the classes are the pool table and the
 two kinds of sinks, with other sinks at work between any two of their steps.
 */
module DbPool {
  import opened Wrappers

  datatype PoolKey = PoolKey(driver: string, dsn: string)

  // An open database pool is named by a number that is never used again.
  datatype Pool = Pool(db: nat, refs: int)

  // `attached`: the connection was accepted by the sink; before that it is only being tried.
  datatype Conn = Detached | Holding(db: nat, attached: bool)

  datatype Sink = Sink(key: PoolKey, conn: Conn)

  datatype World = World(pools: map<PoolKey, Pool>, open: set<nat>, next: nat, sinks: map<nat, Sink>)

  const START := World(map[], {}, 0, map[])

  datatype Event = Create(sink: nat, key: PoolKey) | Acquire(sink: nat) | Attach(sink: nat) | Release(sink: nat)

  // Every opening of an in-memory database is a database of its own.
  predicate IsPrivate(key: PoolKey) {
    key.dsn == ":memory:"
  }

  predicate Enabled(w: World, e: Event) {
    match e
    case Create(s, _) => s !in w.sinks
    case Acquire(s) => s in w.sinks && w.sinks[s].conn.Detached?
    case Attach(s) => s in w.sinks && w.sinks[s].conn.Holding?
    case Release(s) => s in w.sinks && w.sinks[s].conn.Holding?
  }

  function SetConn(w: World, s: nat, c: Conn): World
    requires s in w.sinks
  {
    w.(sinks := w.sinks[s := w.sinks[s].(conn := c)])
  }

  function Acquired(w: World, s: nat): World
    requires s in w.sinks
  {
    var key := w.sinks[s].key;
    if IsPrivate(key) then SetConn(w, s, Holding(w.next, false)).(open := w.open + {w.next}, next := w.next + 1)
    else if key in w.pools then
      SetConn(w, s, Holding(w.pools[key].db, false)).(pools := w.pools[key := Pool(w.pools[key].db, w.pools[key].refs + 1)])
    else SetConn(w, s, Holding(w.next, false)).(pools := w.pools[key := Pool(w.next, 1)], open := w.open + {w.next}, next := w.next + 1)
  }

  // A shared release names the key, not the pool: it counts against whatever pool is there.
  function Released(w: World, s: nat): World
    requires s in w.sinks && w.sinks[s].conn.Holding?
  {
    var key, w' := w.sinks[s].key, SetConn(w, s, Detached);
    if IsPrivate(key) then w'.(open := w.open - {w.sinks[s].conn.db})
    else if key !in w.pools then w'
    else if w.pools[key].refs - 1 <= 0 then w'.(pools := w.pools - {key}, open := w.open - {w.pools[key].db})
    else w'.(pools := w.pools[key := Pool(w.pools[key].db, w.pools[key].refs - 1)])
  }

  function Apply(w: World, e: Event): World
    requires Enabled(w, e)
  {
    match e
    case Create(s, key) => w.(sinks := w.sinks[s := Sink(key, Detached)])
    case Acquire(s) => Acquired(w, s)
    case Attach(s) => SetConn(w, s, Holding(w.sinks[s].conn.db, true))
    case Release(s) => Released(w, s)
  }

  // ---------------------------------------------------------------- ownership

  function Holders(w: World, key: PoolKey): set<nat> {
    set s | s in w.sinks && w.sinks[s].key == key && w.sinks[s].conn.Holding?
  }

  // A pool is counted by its holders, and it is there only while someone holds it.
  ghost predicate PoolSound(w: World, key: PoolKey)
    requires key in w.pools
  {
    !IsPrivate(key) && w.pools[key].refs == |Holders(w, key)| > 0 && w.pools[key].db in w.open
  }

  ghost predicate PoolsSound(w: World) {
    forall key :: key in w.pools ==> PoolSound(w, key)
  }

  // What a sink holds is open, and the pool of its key if the key is shared.
  predicate SinkSound(w: World, s: Sink) {
    s.conn.Holding? ==> s.conn.db in w.open && (!IsPrivate(s.key) ==> s.key in w.pools && w.pools[s.key].db == s.conn.db)
  }

  ghost predicate SinksSound(w: World) {
    forall s :: s in w.sinks ==> SinkSound(w, w.sinks[s])
  }

  predicate HoldsDb(w: World, s: nat, d: nat) {
    s in w.sinks && w.sinks[s].conn.Holding? && w.sinks[s].conn.db == d
  }

  // Two sinks hold one database only through one shared key.
  ghost predicate SharedByKey(w: World) {
    forall s, t, d :: HoldsDb(w, s, d) && HoldsDb(w, t, d) && s != t ==> w.sinks[s].key == w.sinks[t].key && !IsPrivate(w.sinks[s].key)
  }

  // A database is open exactly while a sink holds it.
  ghost predicate OpenIsHeld(w: World) {
    && (forall d :: d in w.open ==> exists s :: HoldsDb(w, s, d))
    && (forall d :: d in w.open ==> d < w.next)
  }

  ghost predicate Inv(w: World) {
    PoolsSound(w) && SinksSound(w) && SharedByKey(w) && OpenIsHeld(w)
  }

  lemma StartIsSound()
    ensures Inv(START)
  {
  }

  // What a change of one sink's connection does to the holders of a key.
  lemma HoldersOf(w: World, w': World, s: nat, key: PoolKey)
    requires s in w.sinks && s in w'.sinks && w'.sinks == w.sinks[s := w.sinks[s].(conn := w'.sinks[s].conn)]
    ensures Holders(w', key) == if key != w.sinks[s].key then Holders(w, key)
                                else if w'.sinks[s].conn.Holding? then Holders(w, key) + {s} else Holders(w, key) - {s}
  {
  }

  lemma OthersHold(w: World, w': World, s: nat)
    requires s in w.sinks && s in w'.sinks && w'.sinks == w.sinks[s := w.sinks[s].(conn := w'.sinks[s].conn)]
    ensures forall t, d :: t != s ==> (HoldsDb(w', t, d) <==> HoldsDb(w, t, d))
    ensures forall t :: t in w'.sinks ==> t in w.sinks && w'.sinks[t].key == w.sinks[t].key
  {
  }

  // A shared key without a pool has no holders.
  lemma NoHolders(w: World, key: PoolKey)
    requires SinksSound(w) && !IsPrivate(key) && key !in w.pools
    ensures Holders(w, key) == {}
  {
  }

  // Whoever holds a pool's database holds it by the pool's key.
  lemma PoolDbIsKeys(w: World, key: PoolKey, t: nat)
    requires PoolsSound(w) && SinksSound(w) && SharedByKey(w) && key in w.pools && HoldsDb(w, t, w.pools[key].db)
    ensures w.sinks[t].key == key
  {
  }

  // ---------------------------------------------------------------- acquire

  lemma AcquireKeepsPools(w: World, s: nat)
    requires Inv(w) && Enabled(w, Acquire(s))
    ensures PoolsSound(Acquired(w, s))
  {
    forall k | k in Acquired(w, s).pools ensures PoolSound(Acquired(w, s), k) {
      if k == w.sinks[s].key { JoinedPool(w, s); } else { OtherPool(w, s, k); }
    }
  }

  lemma OtherPool(w: World, s: nat, k: PoolKey)
    requires PoolsSound(w) && Enabled(w, Acquire(s)) && k in Acquired(w, s).pools && k != w.sinks[s].key
    ensures PoolSound(Acquired(w, s), k)
  {
    assert PoolSound(w, k);
    HoldersOf(w, Acquired(w, s), s, k);
  }

  // The pool of the sink's own key has one holder more.
  lemma JoinedPool(w: World, s: nat)
    requires PoolsSound(w) && SinksSound(w) && Enabled(w, Acquire(s)) && w.sinks[s].key in Acquired(w, s).pools
    ensures PoolSound(Acquired(w, s), w.sinks[s].key)
  {
    var key := w.sinks[s].key;
    HoldersOf(w, Acquired(w, s), s, key);
    assert s !in Holders(w, key);
    if key in w.pools { assert PoolSound(w, key); } else { NoHolders(w, key); }
  }

  lemma AcquireKeepsSinks(w: World, s: nat)
    requires Inv(w) && Enabled(w, Acquire(s))
    ensures SinksSound(Acquired(w, s))
  {
  }

  lemma AcquireKeepsSharing(w: World, s: nat)
    requires Inv(w) && Enabled(w, Acquire(s))
    ensures SharedByKey(Acquired(w, s))
  {
    var w', key := Acquired(w, s), w.sinks[s].key;
    OthersHold(w, w', s);
    forall t, d | t != s && HoldsDb(w', t, d) && HoldsDb(w', s, d) ensures w.sinks[t].key == key && !IsPrivate(key) {
      assert SinkSound(w, w.sinks[t]);
      assert key in w.pools && PoolSound(w, key);
      PoolDbIsKeys(w, key, t);
    }
  }

  lemma AcquireKeepsOpen(w: World, s: nat)
    requires Inv(w) && Enabled(w, Acquire(s))
    ensures OpenIsHeld(Acquired(w, s))
  {
    var w' := Acquired(w, s);
    OthersHold(w, w', s);
    forall x | x in w'.open ensures exists t :: HoldsDb(w', t, x) {
      if x in w.open {
        var t :| HoldsDb(w, t, x);
        assert HoldsDb(w', t, x);
      } else {
        assert HoldsDb(w', s, x);
      }
    }
  }

  // ---------------------------------------------------------------- release

  lemma SubsetSize(a: set<nat>, b: set<nat>)
    requires a <= b
    ensures |a| <= |b|
  {
    assert |b - a| + |a * b| == |b| && a * b == a;
  }

  // Beside another holder the reference is not the last.
  lemma NotTheLast(w: World, s: nat, t: nat)
    requires Inv(w) && Enabled(w, Release(s)) && t != s && t in w.sinks && w.sinks[t].conn.Holding?
    requires w.sinks[t].key == w.sinks[s].key && !IsPrivate(w.sinks[s].key)
    ensures w.sinks[s].key in w.pools && w.pools[w.sinks[s].key].refs >= 2
  {
    var key := w.sinks[s].key;
    assert SinkSound(w, w.sinks[s]) && PoolSound(w, key);
    assert {s, t} <= Holders(w, key);
    SubsetSize({s, t}, Holders(w, key));
  }

  lemma OtherPoolStays(w: World, s: nat, k: PoolKey)
    requires Inv(w) && Enabled(w, Release(s)) && k in w.pools && k != w.sinks[s].key
    ensures k in Released(w, s).pools && Released(w, s).pools[k] == w.pools[k] && w.pools[k].db in Released(w, s).open
  {
    var d := w.sinks[s].conn.db;
    assert SinkSound(w, w.sinks[s]) && PoolSound(w, k) && HoldsDb(w, s, d);
    if w.pools[k].db == d { PoolDbIsKeys(w, k, s); }
  }

  lemma ReleaseKeepsPools(w: World, s: nat)
    requires Inv(w) && Enabled(w, Release(s))
    ensures PoolsSound(Released(w, s))
  {
    var w', key := Released(w, s), w.sinks[s].key;
    assert SinkSound(w, w.sinks[s]) && s in Holders(w, key);
    forall k | k in w'.pools ensures PoolSound(w', k) {
      assert PoolSound(w, k);
      HoldersOf(w, w', s, k);
      if k != key { OtherPoolStays(w, s, k); }
    }
  }

  lemma ReleaseKeepsSinks(w: World, s: nat)
    requires Inv(w) && Enabled(w, Release(s))
    ensures SinksSound(Released(w, s))
  {
    var w', key, d := Released(w, s), w.sinks[s].key, w.sinks[s].conn.db;
    assert SinkSound(w, w.sinks[s]) && HoldsDb(w, s, d);
    forall t | t in w'.sinks ensures SinkSound(w', w'.sinks[t]) {
      assert SinkSound(w, w.sinks[t]);
      if t != s && w.sinks[t].conn.Holding? {
        assert HoldsDb(w, t, w.sinks[t].conn.db);
        if w.sinks[t].key == key && !IsPrivate(key) { NotTheLast(w, s, t); }
      }
    }
  }

  lemma ReleaseKeepsSharing(w: World, s: nat)
    requires Inv(w) && Enabled(w, Release(s))
    ensures SharedByKey(Released(w, s))
  {
    var w' := Released(w, s);
    OthersHold(w, w', s);
    forall t, u, d | HoldsDb(w', t, d) && HoldsDb(w', u, d) && t != u
      ensures w'.sinks[t].key == w'.sinks[u].key && !IsPrivate(w'.sinks[t].key)
    {
      assert HoldsDb(w, t, d) && HoldsDb(w, u, d);
    }
  }

  lemma ReleaseKeepsOpen(w: World, s: nat)
    requires Inv(w) && Enabled(w, Release(s))
    ensures OpenIsHeld(Released(w, s))
  {
    var w' := Released(w, s);
    OthersHold(w, w', s);
    forall x | x in w'.open ensures exists t :: HoldsDb(w', t, x) {
      var t :| HoldsDb(w, t, x);
      if t != s {
        assert HoldsDb(w', t, x);
      } else {
        OtherHolder(w, s);
      }
    }
  }

  // A database that stays open when a sink lets go of it has another holder.
  lemma OtherHolder(w: World, s: nat)
    requires Inv(w) && Enabled(w, Release(s)) && w.sinks[s].conn.db in Released(w, s).open
    ensures exists t :: HoldsDb(Released(w, s), t, w.sinks[s].conn.db)
  {
    var key, w' := w.sinks[s].key, Released(w, s);
    assert SinkSound(w, w.sinks[s]) && !IsPrivate(key) && PoolSound(w, key);
    assert s in Holders(w, key) && |Holders(w, key) - {s}| == w.pools[key].refs - 1;
    assert w.pools[key].refs > 1;
    var t :| t in Holders(w, key) - {s};
    assert SinkSound(w, w.sinks[t]) && HoldsDb(w', t, w.sinks[s].conn.db);
  }

  // ---------------------------------------------------------------- all steps

  // Nothing changes hands.
  lemma SameHolders(w: World, w': World)
    requires Inv(w) && w'.pools == w.pools && w'.open == w.open && w'.next == w.next
    requires forall t :: t in w.sinks ==> t in w'.sinks && w'.sinks[t].key == w.sinks[t].key
    requires forall t, d :: HoldsDb(w', t, d) <==> HoldsDb(w, t, d)
    ensures Inv(w')
  {
    forall k | k in w'.pools ensures PoolSound(w', k) {
      forall t ensures t in Holders(w', k) <==> t in Holders(w, k) {
        if t in Holders(w', k) { assert HoldsDb(w', t, w'.sinks[t].conn.db); }
        if t in Holders(w, k) { assert HoldsDb(w, t, w.sinks[t].conn.db); }
      }
      assert PoolSound(w, k) && Holders(w', k) == Holders(w, k);
    }
    forall t | t in w'.sinks ensures SinkSound(w', w'.sinks[t]) {
      if w'.sinks[t].conn.Holding? {
        assert HoldsDb(w', t, w'.sinks[t].conn.db) && SinkSound(w, w.sinks[t]);
      }
    }
  }

  lemma CreateKeepsInv(w: World, s: nat, key: PoolKey)
    requires Inv(w) && Enabled(w, Create(s, key))
    ensures Inv(Apply(w, Create(s, key)))
  {
    var w' := Apply(w, Create(s, key));
    SameHolders(w, w');
  }

  lemma AttachKeepsInv(w: World, s: nat)
    requires Inv(w) && Enabled(w, Attach(s))
    ensures Inv(Apply(w, Attach(s)))
  {
    SameHolders(w, Apply(w, Attach(s)));
  }

  /** Every step of every sink keeps ownership. */
  lemma StepKeepsInv(w: World, e: Event)
    requires Inv(w) && Enabled(w, e)
    ensures Inv(Apply(w, e))
  {
    match e
    case Create(s, key) => CreateKeepsInv(w, s, key);
    case Acquire(s) =>
      AcquireKeepsPools(w, s);
      AcquireKeepsSinks(w, s);
      AcquireKeepsSharing(w, s);
      AcquireKeepsOpen(w, s);
    case Attach(s) => AttachKeepsInv(w, s);
    case Release(s) =>
      ReleaseKeepsPools(w, s);
      ReleaseKeepsSinks(w, s);
      ReleaseKeepsSharing(w, s);
      ReleaseKeepsOpen(w, s);
  }

  // ---------------------------------------------------------------- runs

  predicate Runs(w: World, es: seq<Event>, w': World)
    decreases |es|
  {
    if es == [] then w == w' else Enabled(w, es[0]) && Runs(Apply(w, es[0]), es[1..], w')
  }

  lemma {:induction false} RunKeepsInv(w: World, es: seq<Event>, w': World)
    requires Inv(w) && Runs(w, es, w')
    ensures Inv(w')
    decreases |es|
  {
    if es != [] {
      StepKeepsInv(w, es[0]);
      RunKeepsInv(Apply(w, es[0]), es[1..], w');
    }
  }

  /**
   Over any interleaving of sinks: a shared pool's count is the number of sinks that hold it, all sinks of one driver and dsn
   hold the same database, no sink holds a closed one, and a database is open only while a sink holds it, so it was closed at
   the last release and not before.
   */
  lemma OwnershipIsExact(es: seq<Event>, w: World)
    requires Runs(START, es, w)
    ensures forall key :: key in w.pools ==> w.pools[key].refs == |Holders(w, key)| > 0
    ensures forall key, s, t :: !IsPrivate(key) && s in Holders(w, key) && t in Holders(w, key) ==> w.sinks[s].conn.db == w.sinks[t].conn.db
    ensures forall d :: d in w.open <==> exists s :: HoldsDb(w, s, d)
  {
    StartIsSound();
    RunKeepsInv(START, es, w);
    forall key | key in w.pools ensures w.pools[key].refs == |Holders(w, key)| > 0 { assert PoolSound(w, key); }
    forall s, d | HoldsDb(w, s, d) ensures d in w.open { assert SinkSound(w, w.sinks[s]); }
    forall key, s, t | !IsPrivate(key) && s in Holders(w, key) && t in Holders(w, key)
      ensures w.sinks[s].conn.db == w.sinks[t].conn.db {
      assert SinkSound(w, w.sinks[s]) && SinkSound(w, w.sinks[t]);
    }
  }

  predicate BothHold(w: World, s: nat, t: nat) {
    s in w.sinks && t in w.sinks && w.sinks[s].conn.Holding? && w.sinks[t].conn.Holding?
  }

  /** Two sinks share a database exactly when they name one driver and dsn, and that dsn is not the in-memory one. */
  lemma SharingIff(es: seq<Event>, w: World, s: nat, t: nat)
    requires Runs(START, es, w) && s != t && BothHold(w, s, t)
    ensures w.sinks[s].conn.db == w.sinks[t].conn.db
      <==> w.sinks[s].key.driver == w.sinks[t].key.driver && w.sinks[s].key.dsn == w.sinks[t].key.dsn != ":memory:"
  {
    OwnershipIsExact(es, w);
    StartIsSound();
    RunKeepsInv(START, es, w);
    if w.sinks[s].conn.db == w.sinks[t].conn.db {
      assert HoldsDb(w, s, w.sinks[s].conn.db) && HoldsDb(w, t, w.sinks[s].conn.db);
    }
    if w.sinks[s].key == w.sinks[t].key { assert s in Holders(w, w.sinks[s].key) && t in Holders(w, w.sinks[s].key); }
  }

  // ---------------------------------------------------------------- the pool table

  // What a sink keeps to give its connection back: the key of a shared pool, or the database of its own.
  datatype Handle = Shared(key: PoolKey) | Private(db: nat)

  predicate IsOf(e: Event, s: nat) {
    e.sink == s
  }

  predicate ByOthers(w: World, es: seq<Event>, w': World, me: nat) {
    Runs(w, es, w') && forall i :: 0 <= i < |es| ==> !IsOf(es[i], me)
  }

  lemma {:induction false} OthersKeepMine(w: World, es: seq<Event>, w': World, me: nat)
    requires ByOthers(w, es, w', me) && me in w.sinks
    ensures me in w'.sinks && w'.sinks[me] == w.sinks[me]
    decreases |es|
  {
    if es != [] {
      assert !IsOf(es[0], me);
      assert forall i :: 0 <= i < |es[1..]| ==> es[1..][i] == es[i + 1];
      OthersKeepMine(Apply(w, es[0]), es[1..], w', me);
    }
  }

  class Pools {
    var pools: map<PoolKey, Pool>
    var open: set<nat>
    var next: nat
    var sinks: map<nat, Sink>

    function View(): World
      reads this
    {
      World(pools, open, next, sinks)
    }

    ghost predicate Valid()
      reads this
    {
      Inv(View())
    }

    constructor ()
      ensures Valid() && View() == START
    {
      pools, open, next, sinks := map[], {}, 0, map[];
    }

    /** Other sinks open, reconnect and close. */
    method Interfere(me: nat)
      requires Valid() && me in sinks
      modifies this
      ensures Valid() && me in sinks && sinks[me] == old(sinks[me])
    {
      var w := View();
      assert ByOthers(w, [], w, me);
      var es, v: World :| ByOthers(w, es, v, me);
      assert ByOthers(w, es, v, me);
      RunKeepsInv(w, es, v);
      OthersKeepMine(w, es, v, me);
      pools, open, next, sinks := v.pools, v.open, v.next, v.sinks;
    }

    // Finds or opens the database of the key.
    method Take(key: PoolKey, me: nat, opens: bool) returns (r: Option<(nat, Handle)>)
      requires me in sinks && sinks[me] == Sink(key, Detached)
      modifies this
      ensures r.Some? <==> opens || (!IsPrivate(key) && key in old(pools))
      ensures View() == if r.None? then old(View()) else Acquired(old(View()), me)
      ensures r.Some? ==> sinks[me] == Sink(key, Holding(r.value.0, false))
      ensures r.Some? ==> r.value.1 == if IsPrivate(key) then Private(r.value.0) else Shared(key)
    {
      if key.dsn == ":memory:" {
        if !opens {
          return None;
        }
        open, next, sinks := open + {next}, next + 1, sinks[me := Sink(key, Holding(next, false))];
        return Some((next - 1, Private(next - 1)));
      }
      if key in pools {
        var p := pools[key];
        pools, sinks := pools[key := Pool(p.db, p.refs + 1)], sinks[me := Sink(key, Holding(p.db, false))];
        return Some((p.db, Shared(key)));
      }
      if !opens {
        return None;
      }
      pools, open, next, sinks := pools[key := Pool(next, 1)], open + {next}, next + 1, sinks[me := Sink(key, Holding(next, false))];
      return Some((next - 1, Shared(key)));
    }

    /** Opens a database, if it can be opened, or counts one more holder of the one that is open. */
    method AcquireDB(key: PoolKey, me: nat, opens: bool) returns (r: Option<(nat, Handle)>)
      requires Valid() && me in sinks && sinks[me] == Sink(key, Detached)
      modifies this
      ensures Valid() && me in sinks
      ensures r.Some? <==> opens || (!IsPrivate(key) && key in old(pools))
      ensures View() == if r.None? then old(View()) else Acquired(old(View()), me)
      ensures r.Some? ==> sinks[me] == Sink(key, Holding(r.value.0, false))
      ensures r.Some? ==> r.value.1 == if IsPrivate(key) then Private(r.value.0) else Shared(key)
    {
      StepKeepsInv(View(), Acquire(me));
      r := Take(key, me, opens);
    }

    /** The sink has accepted its connection. */
    method Attached(me: nat)
      requires Valid() && me in sinks && sinks[me].conn.Holding?
      modifies `sinks
      ensures Valid() && View() == Apply(old(View()), Attach(me)) && sinks[me] == Sink(old(sinks[me].key), Holding(old(sinks[me].conn.db), true))
    {
      StepKeepsInv(View(), Attach(me));
      sinks := sinks[me := sinks[me].(conn := Holding(sinks[me].conn.db, true))];
    }

    // Counts one holder less, and closes what nobody holds.
    method Give(h: Handle, me: nat)
      requires me in sinks && sinks[me].conn.Holding?
      requires h == if IsPrivate(sinks[me].key) then Private(sinks[me].conn.db) else Shared(sinks[me].key)
      modifies this
      ensures View() == Released(old(View()), me) && me in sinks && sinks[me] == Sink(old(sinks[me].key), Detached)
    {
      var key := sinks[me].key;
      match h {
        case Private(db) =>
          open := open - {db};
        case Shared(k) =>
          if k in pools {
            var p := Pool(pools[k].db, pools[k].refs - 1);
            if p.refs <= 0 {
              pools, open := pools - {k}, open - {p.db};
            } else {
              pools := pools[k := p];
            }
          }
      }
      sinks := sinks[me := Sink(key, Detached)];
    }

    /** Gives one reference back; the last one closes the database. */
    method ReleaseDB(h: Handle, me: nat)
      requires Valid() && me in sinks && sinks[me].conn.Holding?
      requires h == if IsPrivate(sinks[me].key) then Private(sinks[me].conn.db) else Shared(sinks[me].key)
      modifies this
      ensures Valid() && View() == Released(old(View()), me) && me in sinks && sinks[me] == Sink(old(sinks[me].key), Detached)
    {
      StepKeepsInv(View(), Release(me));
      Give(h, me);
    }
  }

  // ---------------------------------------------------------------- sinks

  // What the fields of a sink say about what it holds.
  ghost predicate Owns(p: Pools, me: nat, key: PoolKey, db: Option<nat>, closeMe: Option<Handle>)
    reads p
  {
    && p.Valid() && me in p.sinks && p.sinks[me].key == key
    && p.sinks[me].conn == (if db.None? then Detached else Holding(db.value, true))
    && closeMe == (if db.None? then None else Some(if IsPrivate(key) then Private(db.value) else Shared(key)))
  }

  // How an attempt to connect goes: whether a database can be opened, answers, and takes the schema.
  datatype Link = Link(opens: bool, answers: bool, schema: bool)

  // Opens a connection or joins one, while other sinks do the same.
  method Grab(p: Pools, me: nat, key: PoolKey, opens: bool) returns (r: Option<(nat, Handle)>)
    requires Owns(p, me, key, None, None)
    modifies p
    ensures p.Valid() && me in p.sinks && p.sinks[me] == Sink(key, if r.None? then Detached else Holding(r.value.0, false))
    ensures r.Some? ==> r.value.1 == if IsPrivate(key) then Private(r.value.0) else Shared(key)
    ensures opens ==> r.Some?
  {
    p.Interfere(me);
    r := p.AcquireDB(key, me, opens);
    p.Interfere(me);
  }

  /** Opens a connection and pings it; a refused ping gives the reference back. */
  method Connect(p: Pools, me: nat, key: PoolKey, link: Link) returns (db: Option<nat>, closeMe: Option<Handle>)
    requires Owns(p, me, key, None, None)
    modifies p
    ensures Owns(p, me, key, db, closeMe)
    ensures (link.opens && link.answers ==> db.Some?) && (db.Some? ==> link.answers)
  {
    var acquired := Grab(p, me, key, link.opens);
    if acquired.None? {
      return None, None;
    }
    if !link.answers {
      p.ReleaseDB(acquired.value.1, me);
      return None, None;
    }
    p.Attached(me);
    return Some(acquired.value.0), Some(acquired.value.1);
  }

  class SqlStore {
    const pools: Pools
    const id: nat
    const key: PoolKey
    const lazy: bool
    var db: Option<nat>
    var closeMe: Option<Handle>

    ghost predicate Valid()
      reads this, pools
    {
      Owns(pools, id, key, db, closeMe)
    }

    constructor (p: Pools, id: nat, key: PoolKey, lazy: bool)
      requires Owns(p, id, key, None, None)
      ensures Valid() && db.None? && pools == p && this.id == id && this.key == key && this.lazy == lazy
    {
      pools, this.id, this.key, this.lazy, db, closeMe := p, id, key, lazy, None, None;
    }

    /** Connects and ensures the schema; on any failure the sink is left detached. */
    method ConnectStore(link: Link) returns (ok: bool)
      requires Valid() && db.None?
      modifies this, pools
      ensures Valid() && (ok <==> db.Some?)
      ensures (link == Link(true, true, true) ==> ok) && (ok ==> link.answers && link.schema)
    {
      db, closeMe := Connect(pools, id, key, link);
      ok := db.Some?;
      if ok {
        pools.Interfere(id);
        if !link.schema {
          Close();
          ok := false;
        }
      }
    }

    /** Opens eagerly: without a connection there is no store. */
    static method OpenSQL(p: Pools, id: nat, key: PoolKey, link: Link) returns (s: Option<SqlStore>)
      requires Owns(p, id, key, None, None)
      modifies p
      ensures s.Some? ==> fresh(s.value) && s.value.pools == p && s.value.Valid() && s.value.db.Some?
      ensures s.None? ==> Owns(p, id, key, None, None)
      ensures (link == Link(true, true, true) ==> s.Some?) && (s.Some? ==> link.answers && link.schema)
    {
      var store := new SqlStore(p, id, key, false);
      var ok := store.ConnectStore(link);
      return if ok then Some(store) else None;
    }

    method Reset()
      requires Valid()
      modifies this, pools
      ensures Valid() && db.None?
    {
      if closeMe.Some? {
        pools.ReleaseDB(closeMe.value, id);
      }
      db, closeMe := None, None;
    }

    // A store without a connection connects if it is lazy.
    method Opened(first: Link) returns (ok: bool)
      requires Valid()
      modifies this, pools
      ensures Valid() && (ok <==> db.Some?)
      ensures if old(db).Some? || !lazy then db == old(db) else db.None? || first.answers
      ensures old(db).None? && lazy && first == Link(true, true, true) ==> ok
    {
      if db.Some? {
        return true;
      }
      if !lazy {
        return false;
      }
      ok := ConnectStore(first);
    }

    // A connection that no longer answers is discarded; a lazy store connects again.
    method Pinged(alive: bool, second: Link) returns (ok: bool)
      requires Valid() && db.Some?
      modifies this, pools
      ensures Valid() && (ok <==> db.Some?)
      ensures alive ==> db == old(db)
      ensures !alive && ok ==> lazy && second.answers
      ensures !alive && lazy && second == Link(true, true, true) ==> ok
    {
      pools.Interfere(id);
      if alive {
        return true;
      }
      Reset();
      if !lazy {
        return false;
      }
      ok := ConnectStore(second);
    }

    // How the transaction on the connection goes; one that cannot begin discards the connection.
    method Committed(begins: bool, commits: bool) returns (ok: bool)
      requires Valid() && db.Some?
      modifies this, pools
      ensures Valid() && (ok <==> begins && commits)
      ensures if begins then db == old(db) && db.value in pools.open else db.None?
    {
      pools.Interfere(id);
      if !begins {
        Reset();
        return false;
      }
      HeldIsOpen(pools.View(), id);
      return commits;
    }

    /**
     Writes on an open database only. A broken connection is discarded; a lazy store connects again, an eager one stays closed.
     `first` and `second` are how its attempts to connect go, `alive` whether the connection still answers, `begins` and
     `commits` how the transaction goes.
     */
    method Write(records: nat, cancelled: bool, first: Link, alive: bool, second: Link, begins: bool, commits: bool) returns (ok: bool)
      requires Valid()
      modifies this, pools
      ensures Valid()
      ensures ok && records > 0 ==> db.Some? && db.value in pools.open && begins && commits
      ensures records > 0 && (cancelled || (old(db).None? && !lazy)) ==> !ok && db == old(db)
      ensures !lazy && old(db).Some? ==> db == old(db) || (db.None? && !ok)
      ensures ok <== records == 0 || (!cancelled && begins && commits && (old(db).Some? || (lazy && first == Link(true, true, true)))
                                      && (alive || (lazy && second == Link(true, true, true))))
      ensures ok && records > 0 ==> !cancelled && (old(db).Some? || (lazy && first.answers)) && (alive || (lazy && second.answers))
      ensures records > 0 && !begins ==> db.None? || (cancelled && db == old(db))
    {
      if records == 0 {
        return true;
      }
      if cancelled {
        return false;
      }
      ok := Opened(first);
      if !ok {
        return false;
      }
      ok := Pinged(alive, second);
      if !ok {
        return false;
      }
      ok := Committed(begins, commits);
    }

    method Close()
      requires Valid()
      modifies this, pools
      ensures Valid() && db.None?
    {
      if closeMe.None? {
        return;
      }
      pools.ReleaseDB(closeMe.value, id);
      db, closeMe := None, None;
    }
  }

  class TableStorage {
    const pools: Pools
    const id: nat
    const key: PoolKey
    var db: Option<nat>
    var closeMe: Option<Handle>

    ghost predicate Valid()
      reads this, pools
    {
      Owns(pools, id, key, db, closeMe)
    }

    constructor (p: Pools, id: nat, key: PoolKey)
      requires Owns(p, id, key, None, None)
      ensures Valid() && db.None? && pools == p && this.id == id && this.key == key
    {
      pools, this.id, this.key, db, closeMe := p, id, key, None, None;
    }

    /** Unlike the generic store this one stays connected when its schema cannot be ensured. */
    method EnsureConnected(link: Link) returns (ok: bool)
      requires Valid()
      modifies this, pools
      ensures Valid() && (ok ==> db.Some?) && (old(db).Some? ==> ok && db == old(db))
      ensures (link.opens && link.answers ==> db.Some?) && (old(db).None? ==> (ok <==> db.Some? && link.schema))
    {
      if db.Some? {
        return true;
      }
      db, closeMe := Connect(pools, id, key, link);
      ok := db.Some? && link.schema;
    }

    static method OpenTable(p: Pools, id: nat, key: PoolKey, link: Link) returns (t: Option<TableStorage>)
      requires Owns(p, id, key, None, None)
      modifies p
      ensures t.Some? ==> fresh(t.value) && t.value.pools == p && t.value.Valid() && t.value.db.Some?
      ensures t.None? ==> Owns(p, id, key, None, None)
      ensures link == Link(true, true, true) ==> t.Some?
    {
      var table := new TableStorage(p, id, key);
      var ok := table.EnsureConnected(link);
      if !ok {
        table.Close();
        return None;
      }
      return Some(table);
    }

    method Close()
      requires Valid()
      modifies this, pools
      ensures Valid() && db.None?
    {
      if closeMe.None? {
        return;
      }
      pools.ReleaseDB(closeMe.value, id);
      db, closeMe := None, None;
    }
  }

  lemma HeldIsOpen(w: World, s: nat)
    requires Inv(w) && s in w.sinks && w.sinks[s].conn.Holding?
    ensures w.sinks[s].conn.db in w.open
  {
  }
}
