/**
 The process-wide gate and in-flight ledger, and the units that use them: a handler queues jobs, a worker takes them through the
 gate, and both settle every job with the ledger.
 */
module Parallelism {
  import opened Wrappers

  const DEFAULT_GATE_SIZE := 4
  const MAX_RETAINED_ERRORS := 1024
  const QUEUE_SIZE := 8

  // `capacity` is fixed by the first Configure or Acquire; `holders` are the tokens in the gate.
  datatype Books = Books(capacity: Option<int>, holders: nat, pending: int, errs: seq<string>)

  const CLOSED_BOOKS := Books(None, 0, 0, [])

  function LastOf(s: seq<string>, n: nat): seq<string> {
    if |s| <= n then s else s[|s| - n..]
  }

  // Those kept are the latest, in order, and as many as there are up to the bound.
  lemma LastOfIsSuffix(s: seq<string>, n: nat)
    ensures var r := LastOf(s, n);
      |r| == (if |s| <= n then |s| else n) && exists dropped: seq<string> :: s == dropped + r
  {
    if |s| <= n {
      assert s == [] + LastOf(s, n);
    } else {
      assert s == s[..|s| - n] + LastOf(s, n);
    }
  }

  function GateSize(b: Books): int {
    if b.capacity.Some? then b.capacity.value else DEFAULT_GATE_SIZE
  }

  function Configured(b: Books, n: int): Books {
    if b.capacity.Some? || n <= 0 then b else b.(capacity := Some(n))
  }

  function Acquired(b: Books): Books {
    b.(capacity := Some(GateSize(b)), holders := b.holders + 1)
  }

  function Released(b: Books): Books
    requires b.holders > 0
  {
    b.(holders := b.holders - 1)
  }

  function Begun(b: Books): Books {
    b.(pending := b.pending + 1)
  }

  function Finished(b: Books, err: Option<string>): Books {
    b.(errs := if err.Some? then LastOf(b.errs + [err.value], MAX_RETAINED_ERRORS) else b.errs,
       pending := if b.pending - 1 <= 0 then 0 else b.pending - 1)
  }

  // A finish takes one from what is pending, if anything is, and only its own error is added.
  lemma FinishedIs(b: Books, err: Option<string>)
    requires |b.errs| <= 1024
    ensures var after := Finished(b, err);
      && (b.pending > 0 ==> after.pending == b.pending - 1) && (b.pending <= 0 ==> after.pending == 0)
      && after.capacity == b.capacity && after.holders == b.holders && |after.errs| <= 1024
      && (err.None? ==> after.errs == b.errs)
      && (err.Some? ==> after.errs != [] && after.errs[|after.errs| - 1] == err.value)
      && (err.Some? ==> after.errs[..|after.errs| - 1] == if |b.errs| < 1024 then b.errs else b.errs[1..])
  {
  }

  // ---------------------------------------------------------------- the package's state

  class Ledger {
    var gate: Option<int>
    var holders: nat
    var pending: int
    var errs: seq<string>

    function View(): Books
      reads this
    {
      Books(gate, holders, pending, errs)
    }

    constructor ()
      ensures View() == CLOSED_BOOKS
    {
      gate, holders, pending, errs := None, 0, 0, [];
    }

    method Configure(n: int)
      modifies `gate
      ensures View() == Configured(old(View()), n)
    {
      if gate.Some? || n <= 0 {
        return;
      }
      gate := Some(n);
    }

    /** No result means that the caller has to wait: the gate is full and the context is not cancelled. */
    method Acquire(cancelled: bool) returns (ok: Option<bool>)
      modifies `gate, `holders
      ensures gate == Some(GateSize(old(View())))
      ensures ok == Some(true) ==> old(holders) < gate.value && View() == Acquired(old(View()))
      ensures ok == Some(false) ==> cancelled
      ensures ok.None? ==> !cancelled && holders >= gate.value
      ensures ok != Some(true) ==> View() == old(View()).(capacity := gate)
    {
      if gate.None? {
        gate := Some(DEFAULT_GATE_SIZE);
      }
      // With both a free slot and a cancelled context either may be chosen.
      var tryGate: bool := *;
      if holders < gate.value && (tryGate || !cancelled) {
        holders := holders + 1;
        return Some(true);
      }
      return if cancelled then Some(false) else None;
    }

    method Release()
      requires holders > 0
      modifies `holders
      ensures View() == Released(old(View()))
    {
      holders := holders - 1;
    }

    method Begin()
      modifies `pending
      ensures View() == Begun(old(View()))
    {
      pending := pending + 1;
    }

    method Finish(err: Option<string>)
      modifies `pending, `errs
      ensures View() == Finished(old(View()), err)
    {
      if err.Some? {
        errs := errs + [err.value];
        if |errs| > MAX_RETAINED_ERRORS {
          errs := errs[|errs| - MAX_RETAINED_ERRORS..];
        }
      }
      pending := pending - 1;
      if pending <= 0 {
        pending := 0;
      }
    }

    /** No result means that the caller waits on; a result of true is a clean ledger. */
    method Wait(cancelled: bool) returns (ok: Option<bool>)
      ensures ok == if pending <= 0 then Some(true) else if cancelled then Some(false) else None
    {
      if pending > 0 {
        return if cancelled then Some(false) else None;
      }
      return Some(true);
    }

    method DrainErrors() returns (drained: seq<string>)
      modifies `errs
      ensures drained == old(errs) && View() == old(View()).(errs := [])
    {
      drained, errs := errs, [];
    }
  }

  // ---------------------------------------------------------------- units

  datatype Worker =
    | Idle
    | Acquiring(job: nat)
    | Running(job: nat)
    | Settling(job: nat)             // released the gate, about to finish the job
    | Draining
    | Exited

  datatype Unit = Unit(queue: seq<nat>, worker: Worker, cancelled: bool, subscribed: bool)

  // Where a begun job is.
  datatype Place = InHandler(unit: nat) | InQueue(unit: nat) | WithWorker(unit: nat) | Settled

  // `log`: the errors of all jobs settled since the errors were last drained.
  datatype World = World(books: Books, log: seq<string>, units: map<nat, Unit>, jobs: map<nat, Place>)

  // `ordered`: a worker drains only after the unit's handler was withdrawn and none of its calls is under way.
  datatype Config = Config(ordered: bool)

  const START := World(CLOSED_BOOKS, [], map[], map[])

  datatype Event =
    | Configure(n: int)
    | Activate(unit: nat)
    | Deliver(unit: nat, job: nat)
    | Enqueue(job: nat)
    | GiveUp(job: nat, reason: string, byUnit: bool)      // the handler's select takes a cancelled context
    | Take(unit: nat)
    | Acquire(unit: nat)
    | AcquireCancelled(unit: nat, reason: string)
    | Release(unit: nat)
    | Finish(unit: nat, err: Option<string>)
    | Cancel(unit: nat)
    | Withdraw(unit: nat)
    | StartDrain(unit: nat)
    | DrainOne(unit: nat)
    | Exit(unit: nat)
    | DrainErrors

  // A call of the unit's handler is under way.
  predicate HandlerBusy(jobs: map<nat, Place>, unit: nat) {
    exists j :: j in jobs && jobs[j] == InHandler(unit)
  }

  predicate Enabled(cfg: Config, w: World, e: Event) {
    match e
    case Configure(_) => true
    case Activate(u) => u !in w.units
    case Deliver(u, j) => u in w.units && w.units[u].subscribed && j !in w.jobs
    case Enqueue(j) => j in w.jobs && w.jobs[j].InHandler? && w.jobs[j].unit in w.units && |w.units[w.jobs[j].unit].queue| < QUEUE_SIZE
    case GiveUp(j, _, byUnit) =>
      j in w.jobs && w.jobs[j].InHandler? && w.jobs[j].unit in w.units && (byUnit ==> w.units[w.jobs[j].unit].cancelled)
    case Take(u) => u in w.units && w.units[u].worker.Idle? && w.units[u].queue != []
    case Acquire(u) => u in w.units && w.units[u].worker.Acquiring? && w.books.holders < GateSize(w.books)
    case AcquireCancelled(u, _) => u in w.units && w.units[u].worker.Acquiring? && w.units[u].cancelled
    case Release(u) => u in w.units && w.units[u].worker.Running? && w.books.holders > 0
    case Finish(u, _) => u in w.units && w.units[u].worker.Settling?
    case Cancel(u) => u in w.units
    case Withdraw(u) => u in w.units
    case StartDrain(u) =>
      && u in w.units && w.units[u].worker.Idle? && w.units[u].cancelled
      && (cfg.ordered ==> !w.units[u].subscribed && !HandlerBusy(w.jobs, u))
    case DrainOne(u) => u in w.units && w.units[u].worker.Draining? && w.units[u].queue != []
    case Exit(u) => u in w.units && w.units[u].worker.Draining? && w.units[u].queue == []
    case DrainErrors => true
  }

  function Settle(w: World, j: nat, err: Option<string>): World {
    w.(books := Finished(w.books, err), log := if err.Some? then w.log + [err.value] else w.log, jobs := w.jobs[j := Settled])
  }

  function SetUnit(w: World, u: nat, x: Unit): World {
    w.(units := w.units[u := x])
  }

  function Apply(cfg: Config, w: World, e: Event): World
    requires Enabled(cfg, w, e)
  {
    match e
    case Configure(n) => w.(books := Configured(w.books, n))
    case Activate(u) => SetUnit(w, u, Unit([], Idle, false, true))
    case Deliver(u, j) => w.(books := Begun(w.books), jobs := w.jobs[j := InHandler(u)])
    case Enqueue(j) =>
      var u := w.jobs[j].unit;
      SetUnit(w, u, w.units[u].(queue := w.units[u].queue + [j])).(jobs := w.jobs[j := InQueue(u)])
    case GiveUp(j, err, _) => Settle(w, j, Some(err))
    case Take(u) =>
      var j := w.units[u].queue[0];
      SetUnit(w, u, w.units[u].(queue := w.units[u].queue[1..], worker := Acquiring(j))).(jobs := w.jobs[j := WithWorker(u)])
    case Acquire(u) => SetUnit(w, u, w.units[u].(worker := Running(w.units[u].worker.job))).(books := Acquired(w.books))
    case AcquireCancelled(u, err) => Settle(SetUnit(w, u, w.units[u].(worker := Idle)), w.units[u].worker.job, Some(err))
    case Release(u) => SetUnit(w, u, w.units[u].(worker := Settling(w.units[u].worker.job))).(books := Released(w.books))
    case Finish(u, err) => Settle(SetUnit(w, u, w.units[u].(worker := Idle)), w.units[u].worker.job, err)
    case Cancel(u) => SetUnit(w, u, w.units[u].(cancelled := true))
    case Withdraw(u) => SetUnit(w, u, w.units[u].(subscribed := false))
    case StartDrain(u) => SetUnit(w, u, w.units[u].(worker := Draining))
    case DrainOne(u) =>
      Settle(SetUnit(w, u, w.units[u].(queue := w.units[u].queue[1..])), w.units[u].queue[0], Some("context canceled"))
    case Exit(u) => SetUnit(w, u, w.units[u].(worker := Exited))
    case DrainErrors => w.(books := w.books.(errs := []), log := [])
  }

  // ---------------------------------------------------------------- what every step keeps

  function Unsettled(w: World): set<nat> {
    set j | j in w.jobs && w.jobs[j] != Settled
  }

  function RunningUnits(w: World): set<nat> {
    set u | u in w.units && w.units[u].worker.Running?
  }

  // The gate and the ledger agree with where the jobs are.
  ghost predicate BooksAgree(w: World) {
    && w.books.pending == |Unsettled(w)|
    && w.books.holders == |RunningUnits(w)|
    && w.books.holders <= GateSize(w.books) && GateSize(w.books) > 0 && (w.books.capacity.None? ==> w.books.holders == 0)
    && w.books.errs == LastOf(w.log, MAX_RETAINED_ERRORS)
  }

  predicate HasJob(x: Worker, j: nat) {
    (x.Acquiring? || x.Running? || x.Settling?) && x.job == j
  }

  // Every queued or taken job is where its place says, and nowhere else.
  ghost predicate QueueSound(jobs: map<nat, Place>, u: nat, q: seq<nat>) {
    && (forall i :: 0 <= i < |q| ==> q[i] in jobs && jobs[q[i]] == InQueue(u))
    && (forall i, j :: 0 <= i < j < |q| ==> q[i] != q[j])
  }

  ghost predicate WorkerSound(jobs: map<nat, Place>, u: nat, x: Worker) {
    x.Acquiring? || x.Running? || x.Settling? ==> x.job in jobs && jobs[x.job] == WithWorker(u)
  }

  ghost predicate UnitSound(jobs: map<nat, Place>, u: nat, x: Unit) {
    |x.queue| <= QUEUE_SIZE && QueueSound(jobs, u, x.queue) && WorkerSound(jobs, u, x.worker)
  }

  predicate JobSound(units: map<nat, Unit>, j: nat, p: Place) {
    match p
    case InHandler(u) => u in units
    case InQueue(u) => u in units && j in units[u].queue
    case WithWorker(u) => u in units && HasJob(units[u].worker, j)
    case Settled => true
  }

  ghost predicate PlacesAgree(units: map<nat, Unit>, jobs: map<nat, Place>) {
    && (forall u :: u in units ==> UnitSound(jobs, u, units[u]))
    && (forall j :: j in jobs ==> JobSound(units, j, jobs[j]))
  }

  ghost predicate Inv(w: World) {
    BooksAgree(w) && PlacesAgree(w.units, w.jobs)
  }

  lemma StartIsSound()
    ensures Inv(START)
  {
  }

  lemma LastOfNext(s: seq<string>, e: string, n: nat)
    requires n > 0
    ensures LastOf(LastOf(s, n) + [e], n) == LastOf(s + [e], n)
  {
  }

  // ---------------------------------------------------------------- the books

  lemma SettleKeepsBooks(w: World, j: nat, err: Option<string>)
    requires BooksAgree(w) && j in w.jobs && w.jobs[j] != Settled
    ensures BooksAgree(Settle(w, j, err)) && Settle(w, j, err).books.pending == w.books.pending - 1
  {
    assert Unsettled(Settle(w, j, err)) == Unsettled(w) - {j};
    assert j in Unsettled(w);
    if err.Some? { LastOfNext(w.log, err.value, MAX_RETAINED_ERRORS); }
  }

  // A unit that changes without starting or ending a run.
  lemma SetUnitKeepsBooks(w: World, u: nat, x: Unit)
    requires BooksAgree(w) && (u in w.units && w.units[u].worker.Running? <==> x.worker.Running?)
    ensures BooksAgree(SetUnit(w, u, x))
  {
    assert RunningUnits(SetUnit(w, u, x)) == RunningUnits(w);
    assert Unsettled(SetUnit(w, u, x)) == Unsettled(w);
  }

  lemma MoveKeepsBooks(w: World, j: nat, p: Place)
    requires BooksAgree(w) && j in w.jobs && w.jobs[j] != Settled && p != Settled
    ensures BooksAgree(w.(jobs := w.jobs[j := p]))
  {
    assert Unsettled(w.(jobs := w.jobs[j := p])) == Unsettled(w);
    assert RunningUnits(w.(jobs := w.jobs[j := p])) == RunningUnits(w);
  }

  lemma AcquireKeepsBooks(w: World, u: nat, x: Unit)
    requires BooksAgree(w) && u in w.units && !w.units[u].worker.Running? && x.worker.Running? && w.books.holders < GateSize(w.books)
    ensures BooksAgree(SetUnit(w, u, x).(books := Acquired(w.books)))
  {
    var w' := SetUnit(w, u, x).(books := Acquired(w.books));
    assert RunningUnits(w') == RunningUnits(w) + {u};
    assert Unsettled(w') == Unsettled(w);
  }

  lemma ReleaseKeepsBooks(w: World, u: nat, x: Unit)
    requires BooksAgree(w) && u in w.units && w.units[u].worker.Running? && !x.worker.Running? && w.books.holders > 0
    ensures BooksAgree(SetUnit(w, u, x).(books := Released(w.books)))
  {
    var w' := SetUnit(w, u, x).(books := Released(w.books));
    assert RunningUnits(w') == RunningUnits(w) - {u};
    assert Unsettled(w') == Unsettled(w);
  }

  lemma MoveUnitKeepsBooks(w: World, u: nat, x: Unit, j: nat, p: Place)
    requires BooksAgree(w) && u in w.units && !w.units[u].worker.Running? && !x.worker.Running?
    requires j in w.jobs && w.jobs[j] != Settled && p != Settled
    ensures BooksAgree(SetUnit(w, u, x).(jobs := w.jobs[j := p]))
  {
    SetUnitKeepsBooks(w, u, x);
    MoveKeepsBooks(SetUnit(w, u, x), j, p);
  }

  lemma SettleUnitKeepsBooks(w: World, u: nat, x: Unit, j: nat, err: Option<string>)
    requires BooksAgree(w) && u in w.units && !w.units[u].worker.Running? && !x.worker.Running?
    requires j in w.jobs && w.jobs[j] != Settled
    ensures BooksAgree(Settle(SetUnit(w, u, x), j, err))
  {
    SetUnitKeepsBooks(w, u, x);
    SettleKeepsBooks(SetUnit(w, u, x), j, err);
  }

  lemma WorkersJob(w: World, u: nat)
    requires PlacesAgree(w.units, w.jobs) && u in w.units
    ensures var x := w.units[u].worker;
            x.Acquiring? || x.Running? || x.Settling? ==> x.job in w.jobs && w.jobs[x.job] == WithWorker(u)
  {
  }

  lemma QueueHead(w: World, u: nat)
    requires PlacesAgree(w.units, w.jobs) && u in w.units && w.units[u].queue != []
    ensures w.units[u].queue[0] in w.jobs && w.jobs[w.units[u].queue[0]] == InQueue(u)
  {
  }

  lemma EnqueueKeepsBooks(cfg: Config, w: World, j: nat)
    requires BooksAgree(w) && Enabled(cfg, w, Enqueue(j))
    ensures BooksAgree(Apply(cfg, w, Enqueue(j)))
  {
    var u := w.jobs[j].unit;
    var x := w.units[u].(queue := w.units[u].queue + [j]);
    SetUnitKeepsBooks(w, u, x);
    MoveKeepsBooks(SetUnit(w, u, x), j, InQueue(u));
  }

  lemma DeliverKeepsBooks(w: World, u: nat, j: nat)
    requires BooksAgree(w) && j !in w.jobs
    ensures BooksAgree(w.(books := Begun(w.books), jobs := w.jobs[j := InHandler(u)]))
  {
    var w' := w.(books := Begun(w.books), jobs := w.jobs[j := InHandler(u)]);
    assert Unsettled(w') == Unsettled(w) + {j} && RunningUnits(w') == RunningUnits(w);
  }

  lemma BooksOnlyKeepsBooks(w: World, b: Books, log: seq<string>)
    requires BooksAgree(w) && b.pending == w.books.pending && b.holders == w.books.holders
    requires GateSize(b) == GateSize(w.books) || (w.books.holders == 0 && GateSize(b) > 0)
    requires b.errs == LastOf(log, MAX_RETAINED_ERRORS) && (b.capacity.None? ==> b.holders == 0)
    ensures BooksAgree(w.(books := b, log := log))
  {
  }

  /** Every step keeps gate and ledger in agreement with the jobs. */
  lemma StepKeepsBooks(cfg: Config, w: World, e: Event)
    requires BooksAgree(w) && PlacesAgree(w.units, w.jobs) && Enabled(cfg, w, e)
    ensures BooksAgree(Apply(cfg, w, e))
  {
    match e
    case Configure(n) => BooksOnlyKeepsBooks(w, Configured(w.books, n), w.log);
    case Activate(u) => SetUnitKeepsBooks(w, u, Unit([], Idle, false, true));
    case Deliver(u, j) => DeliverKeepsBooks(w, u, j);
    case Enqueue(j) => EnqueueKeepsBooks(cfg, w, j);
    case GiveUp(j, err, _) => SettleKeepsBooks(w, j, Some(err));
    case Take(u) =>
      QueueHead(w, u);
      var j := w.units[u].queue[0];
      MoveUnitKeepsBooks(w, u, w.units[u].(queue := w.units[u].queue[1..], worker := Acquiring(j)), j, WithWorker(u));
    case Acquire(u) => AcquireKeepsBooks(w, u, w.units[u].(worker := Running(w.units[u].worker.job)));
    case AcquireCancelled(u, err) =>
      WorkersJob(w, u);
      SettleUnitKeepsBooks(w, u, w.units[u].(worker := Idle), w.units[u].worker.job, Some(err));
    case Release(u) => ReleaseKeepsBooks(w, u, w.units[u].(worker := Settling(w.units[u].worker.job)));
    case Finish(u, err) =>
      WorkersJob(w, u);
      SettleUnitKeepsBooks(w, u, w.units[u].(worker := Idle), w.units[u].worker.job, err);
    case Cancel(u) => SetUnitKeepsBooks(w, u, w.units[u].(cancelled := true));
    case Withdraw(u) => SetUnitKeepsBooks(w, u, w.units[u].(subscribed := false));
    case StartDrain(u) => SetUnitKeepsBooks(w, u, w.units[u].(worker := Draining));
    case DrainOne(u) =>
      QueueHead(w, u);
      SettleUnitKeepsBooks(w, u, w.units[u].(queue := w.units[u].queue[1..]), w.units[u].queue[0], Some("context canceled"));
    case Exit(u) => SetUnitKeepsBooks(w, u, w.units[u].(worker := Exited));
    case DrainErrors => BooksOnlyKeepsBooks(w, w.books.(errs := []), []);
  }

  // ---------------------------------------------------------------- the places

  // A unit changes without moving a job.
  lemma ChangeUnit(units: map<nat, Unit>, jobs: map<nat, Place>, u: nat, x: Unit)
    requires PlacesAgree(units, jobs) && u in units && UnitSound(jobs, u, x)
    requires x.queue == units[u].queue && forall j :: HasJob(units[u].worker, j) ==> HasJob(x.worker, j)
    ensures PlacesAgree(units[u := x], jobs)
  {
  }

  lemma DeliverKeepsPlaces(units: map<nat, Unit>, jobs: map<nat, Place>, u: nat, j: nat)
    requires PlacesAgree(units, jobs) && u in units && j !in jobs
    ensures PlacesAgree(units, jobs[j := InHandler(u)])
  {
  }

  lemma EnqueueKeepsPlaces(units: map<nat, Unit>, jobs: map<nat, Place>, u: nat, j: nat)
    requires PlacesAgree(units, jobs) && u in units && j in jobs && jobs[j] == InHandler(u) && |units[u].queue| < QUEUE_SIZE
    ensures PlacesAgree(units[u := units[u].(queue := units[u].queue + [j])], jobs[j := InQueue(u)])
  {
  }

  lemma GiveUpKeepsPlaces(units: map<nat, Unit>, jobs: map<nat, Place>, u: nat, j: nat)
    requires PlacesAgree(units, jobs) && u in units && j in jobs && jobs[j] == InHandler(u)
    ensures PlacesAgree(units, jobs[j := Settled])
  {
  }

  lemma TakeKeepsPlaces(units: map<nat, Unit>, jobs: map<nat, Place>, u: nat)
    requires PlacesAgree(units, jobs) && u in units && units[u].worker.Idle? && units[u].queue != []
    ensures var j := units[u].queue[0];
            PlacesAgree(units[u := units[u].(queue := units[u].queue[1..], worker := Acquiring(j))], jobs[j := WithWorker(u)])
  {
  }

  lemma DrainOneKeepsPlaces(units: map<nat, Unit>, jobs: map<nat, Place>, u: nat)
    requires PlacesAgree(units, jobs) && u in units && units[u].worker.Draining? && units[u].queue != []
    ensures var j := units[u].queue[0];
            PlacesAgree(units[u := units[u].(queue := units[u].queue[1..])], jobs[j := Settled])
  {
  }

  lemma WorkerDoneKeepsPlaces(units: map<nat, Unit>, jobs: map<nat, Place>, u: nat, j: nat)
    requires PlacesAgree(units, jobs) && u in units && HasJob(units[u].worker, j)
    ensures j in jobs && jobs[j] == WithWorker(u)
    ensures PlacesAgree(units[u := units[u].(worker := Idle)], jobs[j := Settled])
  {
  }

  lemma ActivateKeepsPlaces(units: map<nat, Unit>, jobs: map<nat, Place>, u: nat)
    requires PlacesAgree(units, jobs) && u !in units
    ensures PlacesAgree(units[u := Unit([], Idle, false, true)], jobs)
  {
  }

  lemma StepKeepsPlaces(cfg: Config, w: World, e: Event)
    requires PlacesAgree(w.units, w.jobs) && Enabled(cfg, w, e)
    ensures PlacesAgree(Apply(cfg, w, e).units, Apply(cfg, w, e).jobs)
  {
    match e
    case Configure(n) =>
    case Activate(u) => ActivateKeepsPlaces(w.units, w.jobs, u);
    case Deliver(u, j) => DeliverKeepsPlaces(w.units, w.jobs, u, j);
    case Enqueue(j) => EnqueueKeepsPlaces(w.units, w.jobs, w.jobs[j].unit, j);
    case GiveUp(j, _, _) => GiveUpKeepsPlaces(w.units, w.jobs, w.jobs[j].unit, j);
    case Take(u) => TakeKeepsPlaces(w.units, w.jobs, u);
    case AcquireCancelled(u, _) => WorkerDoneKeepsPlaces(w.units, w.jobs, u, w.units[u].worker.job);
    case Finish(u, _) => WorkerDoneKeepsPlaces(w.units, w.jobs, u, w.units[u].worker.job);
    case DrainOne(u) => DrainOneKeepsPlaces(w.units, w.jobs, u);
    case DrainErrors =>
    case _ =>
      var u := e.unit;
      assert UnitSound(w.jobs, u, w.units[u]);
      ChangeUnit(w.units, w.jobs, u, Apply(cfg, w, e).units[u]);
  }

  /** Every step keeps the invariant. */
  lemma StepKeepsInv(cfg: Config, w: World, e: Event)
    requires Inv(w) && Enabled(cfg, w, e)
    ensures Inv(Apply(cfg, w, e))
  {
    StepKeepsBooks(cfg, w, e);
    StepKeepsPlaces(cfg, w, e);
  }

  // ---------------------------------------------------------------- runs

  predicate Legal(cfg: Config, w: World, es: seq<Event>)
    decreases |es|
  {
    es == [] || (Enabled(cfg, w, es[0]) && Legal(cfg, Apply(cfg, w, es[0]), es[1..]))
  }

  function Final(cfg: Config, w: World, es: seq<Event>): World
    requires Legal(cfg, w, es)
    decreases |es|
  {
    if es == [] then w else Final(cfg, Apply(cfg, w, es[0]), es[1..])
  }

  lemma {:induction false} RunKeepsInv(cfg: Config, w: World, es: seq<Event>)
    requires Inv(w) && Legal(cfg, w, es)
    ensures Inv(Final(cfg, w, es))
    decreases |es|
  {
    if es != [] {
      StepKeepsInv(cfg, w, es[0]);
      RunKeepsInv(cfg, Apply(cfg, w, es[0]), es[1..]);
    }
  }

  /**
   In every interleaving: pending counts the jobs begun and not finished, the gate's tokens are the running collections and never
   more than its capacity, and the error ledger is the last 1024 errors since it was drained, in order.
   */
  lemma LedgerIsRight(cfg: Config, es: seq<Event>)
    requires Legal(cfg, START, es)
    ensures var w := Final(cfg, START, es);
            && w.books.pending == |Unsettled(w)|
            && w.books.holders == |RunningUnits(w)| <= GateSize(w.books)
            && w.books.errs == LastOf(w.log, MAX_RETAINED_ERRORS)
            && |w.books.errs| == (if |w.log| <= 1024 then |w.log| else 1024)
            && exists dropped: seq<string> :: w.log == dropped + w.books.errs
  {
    StartIsSound();
    RunKeepsInv(cfg, START, es);
    LastOfIsSuffix(Final(cfg, START, es).log, MAX_RETAINED_ERRORS);
  }

  /** A wait that ends without an error finds nothing in flight. */
  lemma WaitMeansDone(cfg: Config, es: seq<Event>)
    requires Legal(cfg, START, es) && Final(cfg, START, es).books.pending <= 0
    ensures forall j :: j in Final(cfg, START, es).jobs ==> Final(cfg, START, es).jobs[j] == Settled
  {
    var w := Final(cfg, START, es);
    StartIsSound();
    RunKeepsInv(cfg, START, es);
    assert Unsettled(w) == {};
    forall j | j in w.jobs ensures w.jobs[j] == Settled {
      assert j !in Unsettled(w);
    }
  }

  /** The gate's capacity is fixed by the first Configure or Acquire. */
  lemma {:induction false} CapacityIsFixed(cfg: Config, w: World, es: seq<Event>)
    requires Legal(cfg, w, es) && w.books.capacity.Some?
    ensures Final(cfg, w, es).books.capacity == w.books.capacity
    decreases |es|
  {
    if es != [] { CapacityIsFixed(cfg, Apply(cfg, w, es[0]), es[1..]); }
  }

  // The job whose end a step reports to the ledger.
  function Settles(w: World, e: Event): Option<nat> {
    match e
    case GiveUp(j, _, _) => Some(j)
    case AcquireCancelled(u, _) => if u in w.units && w.units[u].worker.Acquiring? then Some(w.units[u].worker.job) else None
    case Finish(u, _) => if u in w.units && w.units[u].worker.Settling? then Some(w.units[u].worker.job) else None
    case DrainOne(u) => if u in w.units && w.units[u].queue != [] then Some(w.units[u].queue[0]) else None
    case _ => None
  }

  function TimesSettled(cfg: Config, w: World, es: seq<Event>, j: nat): nat
    requires Legal(cfg, w, es)
    decreases |es|
  {
    if es == [] then 0
    else (if Settles(w, es[0]) == Some(j) then 1 else 0) + TimesSettled(cfg, Apply(cfg, w, es[0]), es[1..], j)
  }

  function IsSettled(w: World, j: nat): nat {
    if j in w.jobs && w.jobs[j] == Settled then 1 else 0
  }

  lemma SettlesUnsettled(cfg: Config, w: World, e: Event, j: nat)
    requires Inv(w) && Enabled(cfg, w, e)
    ensures IsSettled(Apply(cfg, w, e), j) == IsSettled(w, j) + (if Settles(w, e) == Some(j) then 1 else 0)
  {
    match e
    case AcquireCancelled(u, _) => WorkersJob(w, u);
    case Finish(u, _) => WorkersJob(w, u);
    case DrainOne(u) => QueueHead(w, u);
    case Take(u) => QueueHead(w, u);
    case _ =>
  }

  /** Every job is finished at most once, and exactly once when it is settled. */
  lemma {:induction false} FinishedOnce(cfg: Config, w: World, es: seq<Event>, j: nat)
    requires Inv(w) && Legal(cfg, w, es)
    ensures TimesSettled(cfg, w, es, j) + IsSettled(w, j) == IsSettled(Final(cfg, w, es), j)
    decreases |es|
  {
    if es != [] {
      SettlesUnsettled(cfg, w, es[0], j);
      StepKeepsInv(cfg, w, es[0]);
      FinishedOnce(cfg, Apply(cfg, w, es[0]), es[1..], j);
    }
  }

  // Draining and exited workers' units get no more jobs, and an exited one has none queued.
  ghost predicate Withdrawn(w: World) {
    forall u :: u in w.units && (w.units[u].worker.Draining? || w.units[u].worker.Exited?) ==>
      !w.units[u].subscribed && !HandlerBusy(w.jobs, u) && (w.units[u].worker.Exited? ==> w.units[u].queue == [])
  }

  lemma StepKeepsWithdrawn(cfg: Config, w: World, e: Event)
    requires Withdrawn(w) && Enabled(cfg, w, e) && cfg.ordered
    ensures Withdrawn(Apply(cfg, w, e))
  {
    var w' := Apply(cfg, w, e);
    forall u | u in w'.units && (w'.units[u].worker.Draining? || w'.units[u].worker.Exited?)
      ensures !w'.units[u].subscribed && !HandlerBusy(w'.jobs, u) && (w'.units[u].worker.Exited? ==> w'.units[u].queue == []) {
      if HandlerBusy(w'.jobs, u) {
        var j :| j in w'.jobs && w'.jobs[j] == InHandler(u);
        assert j in w.jobs && w.jobs[j] == InHandler(u) ==> HandlerBusy(w.jobs, u);
      }
      if e.Enqueue? && w.jobs[e.job].unit == u { assert HandlerBusy(w.jobs, u); }
    }
  }

  lemma {:induction false} RunKeepsWithdrawn(cfg: Config, w: World, es: seq<Event>)
    requires Withdrawn(w) && Legal(cfg, w, es) && cfg.ordered
    ensures Withdrawn(Final(cfg, w, es))
    decreases |es|
  {
    if es != [] {
      StepKeepsWithdrawn(cfg, w, es[0]);
      RunKeepsWithdrawn(cfg, Apply(cfg, w, es[0]), es[1..]);
    }
  }

  /** When workers drain only after their handler was withdrawn, one that has exited leaves none of its unit's jobs unfinished. */
  lemma ExitLeavesNothing(cfg: Config, es: seq<Event>, u: nat, j: nat)
    requires Legal(cfg, START, es) && cfg.ordered
    requires u in Final(cfg, START, es).units && Final(cfg, START, es).units[u].worker.Exited?
    requires j in Final(cfg, START, es).jobs && !Final(cfg, START, es).jobs[j].Settled?
    ensures Final(cfg, START, es).jobs[j].unit != u
  {
    var w := Final(cfg, START, es);
    StartIsSound();
    RunKeepsInv(cfg, START, es);
    RunKeepsWithdrawn(cfg, START, es);
    assert JobSound(w.units, j, w.jobs[j]);
    assert w.jobs[j] == InHandler(u) ==> HandlerBusy(w.jobs, u);
  }

  // ---------------------------------------------------------------- what happens when the handler outlives the worker

  // The worker has exited and a job lies in its queue.
  predicate Stranded(w: World, u: nat, j: nat) {
    u in w.units && w.units[u].worker.Exited? && j in w.jobs && w.jobs[j] == InQueue(u)
  }

  lemma StrandedStep(cfg: Config, w: World, e: Event, u: nat, j: nat)
    requires Stranded(w, u, j) && PlacesAgree(w.units, w.jobs) && Enabled(cfg, w, e)
    ensures Stranded(Apply(cfg, w, e), u, j)
  {
    match e
    case AcquireCancelled(v, _) => WorkersJob(w, v);
    case Finish(v, _) => WorkersJob(w, v);
    case DrainOne(v) => QueueHead(w, v);
    case Take(v) => QueueHead(w, v);
    case _ =>
  }

  /** Nothing settles a stranded job any more: the ledger stays open, and a wait for it never ends. */
  lemma {:induction false} StrandedForever(cfg: Config, w: World, es: seq<Event>, u: nat, j: nat)
    requires Stranded(w, u, j) && Inv(w) && Legal(cfg, w, es)
    ensures Stranded(Final(cfg, w, es), u, j) && Final(cfg, w, es).books.pending > 0
    decreases |es|
  {
    if es == [] {
      assert j in Unsettled(w);
    } else {
      StrandedStep(cfg, w, es[0], u, j);
      StepKeepsInv(cfg, w, es[0]);
      StrandedForever(cfg, Apply(cfg, w, es[0]), es[1..], u, j);
    }
  }

  lemma {:induction false} LegalAppend(cfg: Config, w: World, es: seq<Event>, e: Event)
    requires Legal(cfg, w, es) && Enabled(cfg, Final(cfg, w, es), e)
    ensures Legal(cfg, w, es + [e]) && Final(cfg, w, es + [e]) == Apply(cfg, Final(cfg, w, es), e)
    decreases |es|
  {
    if es != [] {
      LegalAppend(cfg, Apply(cfg, w, es[0]), es[1..], e);
      assert (es + [e])[1..] == es[1..] + [e];
    }
  }

  // A job was begun, its handler has not queued it yet, and the unit is cancelled.
  lemma Delivered(cfg: Config, u: nat, j: nat) returns (es: seq<Event>)
    ensures Legal(cfg, START, es)
    ensures Final(cfg, START, es) == World(Books(None, 0, 1, []), [], map[u := Unit([], Idle, true, true)], map[j := InHandler(u)])
  {
    LegalAppend(cfg, START, [], Activate(u));
    es := [] + [Activate(u)];
    LegalAppend(cfg, START, es, Deliver(u, j));
    es := es + [Deliver(u, j)];
    LegalAppend(cfg, START, es, Cancel(u));
    es := es + [Cancel(u)];
  }

  /** Without that order such a job exists: it was begun before the worker drained, and queued after. */
  lemma LateHandlerStrandsAJob(cfg: Config, u: nat, j: nat)
    requires !cfg.ordered
    ensures exists es :: Legal(cfg, START, es) && Stranded(Final(cfg, START, es), u, j)
  {
    var es3 := Delivered(cfg, u, j);
    LegalAppend(cfg, START, es3, StartDrain(u));
    var es4 := es3 + [StartDrain(u)];
    LegalAppend(cfg, START, es4, Exit(u));
    var es5 := es4 + [Exit(u)];
    LegalAppend(cfg, START, es5, Enqueue(j));
    assert Stranded(Final(cfg, START, es5 + [Enqueue(j)]), u, j);
  }

  // ---------------------------------------------------------------- exactly when a job can be stranded

  // Something of the unit can still queue a job, or has.
  predicate Outlives(w: World, u: nat)
    requires u in w.units
  {
    w.units[u].subscribed || HandlerBusy(w.jobs, u) || w.units[u].queue != []
  }

  ghost predicate CanStrand(cfg: Config, w: World, u: nat) {
    exists es, j :: Legal(cfg, w, es) && Stranded(Final(cfg, w, es), u, j)
  }

  ghost predicate Silent(w: World, u: nat) {
    u in w.units && w.units[u].worker.Exited? && !Outlives(w, u)
  }

  lemma SilentStep(cfg: Config, w: World, e: Event, u: nat)
    requires Silent(w, u) && Enabled(cfg, w, e)
    ensures Silent(Apply(cfg, w, e), u)
  {
    var w' := Apply(cfg, w, e);
    forall j | j in w'.jobs ensures w'.jobs[j] != InHandler(u) {
      assert j in w.jobs ==> w.jobs[j] != InHandler(u);
    }
  }

  lemma {:induction false} SilentStays(cfg: Config, w: World, es: seq<Event>, u: nat)
    requires Silent(w, u) && Legal(cfg, w, es)
    ensures Silent(Final(cfg, w, es), u)
    decreases |es|
  {
    if es != [] {
      SilentStep(cfg, w, es[0], u);
      SilentStays(cfg, Apply(cfg, w, es[0]), es[1..], u);
    }
  }

  lemma {:induction false} FreshJob(jobs: set<nat>) returns (j: nat)
    ensures j !in jobs && forall i :: i in jobs ==> i < j
    decreases |jobs|
  {
    j := 0;
    if jobs != {} {
      var i :| i in jobs;
      var k := FreshJob(jobs - {i});
      assert jobs == (jobs - {i}) + {i};
      j := if i < k then k else i + 1;
    }
  }

  lemma BusyStrands(cfg: Config, w: World, u: nat, j: nat)
    requires u in w.units && w.units[u].worker.Exited? && w.units[u].queue == [] && j in w.jobs && w.jobs[j] == InHandler(u)
    ensures Legal(cfg, w, [Enqueue(j)]) && Stranded(Final(cfg, w, [Enqueue(j)]), u, j)
  {
    var w' := Apply(cfg, w, Enqueue(j));
    assert Legal(cfg, w', []) && Final(cfg, w', []) == w';
    assert [Enqueue(j)][1..] == [];
  }

  /**
   Exactly when: behind an exited worker a job can be stranded if and only if its handler is still subscribed, a call of it is
   under way, or a job is queued already.
   */
  lemma CanStrandIff(cfg: Config, w: World, u: nat)
    requires Inv(w) && u in w.units && w.units[u].worker.Exited?
    ensures CanStrand(cfg, w, u) <==> w.units[u].subscribed || HandlerBusy(w.jobs, u) || w.units[u].queue != []
  {
    if !Outlives(w, u) {
      forall es, j | Legal(cfg, w, es) ensures !Stranded(Final(cfg, w, es), u, j) {
        SilentStays(cfg, w, es, u);
        RunKeepsInv(cfg, w, es);
        var v := Final(cfg, w, es);
        assert j in v.jobs ==> JobSound(v.units, j, v.jobs[j]);
      }
    } else if w.units[u].queue != [] {
      var j := w.units[u].queue[0];
      QueueHead(w, u);
      assert Legal(cfg, w, []) && Stranded(Final(cfg, w, []), u, j);
    } else if HandlerBusy(w.jobs, u) {
      var j :| j in w.jobs && w.jobs[j] == InHandler(u);
      BusyStrands(cfg, w, u, j);
    } else {
      var j := FreshJob(w.jobs.Keys);
      var v := Apply(cfg, w, Deliver(u, j));
      BusyStrands(cfg, v, u, j);
      assert [Deliver(u, j), Enqueue(j)][1..] == [Enqueue(j)];
      assert Legal(cfg, w, [Deliver(u, j), Enqueue(j)]) && Stranded(Final(cfg, w, [Deliver(u, j), Enqueue(j)]), u, j);
    }
  }
}
