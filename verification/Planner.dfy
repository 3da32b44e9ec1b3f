/** What a trigger should attempt: the recorded incomplete dates, then the calendar gap that ends at the target. */
module Planning {
  import opened Wrappers
  import opened Model
  import opened State

  const STALE_AFTER: Time := 24 * 3600 * 1000000000

  // The first day of the synthesized window, as a day number; past the target when there is no window.
  function WindowStart(last: Option<CollectionDate>, target: CollectionDate, catchupDays: int): int {
    var afterLast := if last.Some? then DayNumber(last.value) + 1 else DayNumber(target) + 1;
    if catchupDays <= 0 then afterLast else
      var earliest := DayNumber(target) - (catchupDays - 1);
      if last.None? || afterLast < earliest then earliest else afterLast
  }

  predicate InWindow(last: Option<CollectionDate>, source: SourceID, target: CollectionDate, catchupDays: int, k: CollectionKey) {
    k.source == source && WindowStart(last, target, catchupDays) <= DayNumber(k.date) <= DayNumber(target)
  }

  // What belongs to the plan, given the latest succeeded date up to the target.
  predicate IsPlanned(l: Ledger, last: Option<CollectionDate>, source: SourceID, target: CollectionDate, catchupDays: int,
                      now: Time, k: CollectionKey) {
    IsIncomplete(l, k, source, target, STALE_AFTER, now) || InWindow(last, source, target, catchupDays, k)
  }

  ghost predicate NoRepeats<T(!new)>(s: seq<T>) {
    forall i, j :: 0 <= i < j < |s| ==> s[i] != s[j]
  }

  /** The window has at most `catchupDays` dates, and is empty without a success when catch-up is off. */
  lemma WindowSize(last: Option<CollectionDate>, target: CollectionDate, catchupDays: int)
    ensures catchupDays > 0 ==> DayNumber(target) + 1 - WindowStart(last, target, catchupDays) <= catchupDays
    ensures catchupDays <= 0 && last.None? ==> WindowStart(last, target, catchupDays) > DayNumber(target)
    ensures last.Some? ==> WindowStart(last, target, catchupDays) > DayNumber(last.value)
  {
  }

  // A date that is owed: up to the target, after the last success if there is one, and, where catch-up is limited, fewer days before
  // the target than that; without catch-up a first success is needed.
  predicate IsOwed(last: Option<CollectionDate>, source: SourceID, target: CollectionDate, catchupDays: int, k: CollectionKey) {
    && k.source == source && !After(k.date, target)
    && (last.Some? ==> After(k.date, last.value))
    && (if catchupDays > 0 then DayNumber(target) - DayNumber(k.date) < catchupDays else last.Some?)
  }

  /** Exactly when: a date is in the window if and only if it is owed. */
  lemma WindowIsOwed(last: Option<CollectionDate>, source: SourceID, target: CollectionDate, catchupDays: int, k: CollectionKey)
    ensures InWindow(last, source, target, catchupDays, k) <==> IsOwed(last, source, target, catchupDays, k)
  {
    CompareIsDayOrder(k.date, target);
    if last.Some? { CompareIsDayOrder(k.date, last.value); }
  }

  // `keys` lists, each once, the incomplete dates and the owed ones.
  ghost predicate ListsWhatIsOwed(l: Ledger, source: SourceID, target: CollectionDate, catchupDays: int, now: Time, keys: seq<CollectionKey>) {
    && NoRepeats(keys)
    && exists last :: IsLastCompleted(l, source, target, last) && ListsOwedAfter(l, last, source, target, catchupDays, now, keys)
  }

  ghost predicate ListsOwedAfter(l: Ledger, last: Option<CollectionDate>, source: SourceID, target: CollectionDate, catchupDays: int,
                                 now: Time, keys: seq<CollectionKey>) {
    forall k :: k in keys <==> IsIncomplete(l, k, source, target, STALE_AFTER, now) || IsOwed(last, source, target, catchupDays, k)
  }

  lemma PlanIsOwed(l: Ledger, source: SourceID, target: CollectionDate, catchupDays: int, now: Time, keys: seq<CollectionKey>)
    requires IsPlan(l, source, target, catchupDays, now, keys)
    ensures ListsWhatIsOwed(l, source, target, catchupDays, now, keys)
  {
    var last :| PlanAfter(l, last, source, target, catchupDays, now, keys);
    forall k ensures k in keys <==> IsIncomplete(l, k, source, target, STALE_AFTER, now) || IsOwed(last, source, target, catchupDays, k) {
      WindowIsOwed(last, source, target, catchupDays, k);
    }
    assert ListsOwedAfter(l, last, source, target, catchupDays, now, keys);
  }

  // A list of keys without repeats, together with the set that guards it.
  ghost predicate Guarded(ordered: seq<CollectionKey>, byKey: set<CollectionKey>) {
    NoRepeats(ordered) && forall x :: x in ordered <==> x in byKey
  }

  method Add(ordered: seq<CollectionKey>, byKey: set<CollectionKey>, k: CollectionKey)
    returns (ordered': seq<CollectionKey>, byKey': set<CollectionKey>)
    requires Guarded(ordered, byKey)
    ensures Guarded(ordered', byKey') && byKey' == byKey + {k}
  {
    if k in byKey {
      assert byKey + {k} == byKey;
      return ordered, byKey;
    }
    return ordered + [k], byKey + {k};
  }

  method AddKnown(known: seq<CollectionKey>, target: CollectionDate)
    returns (ordered: seq<CollectionKey>, byKey: set<CollectionKey>)
    requires forall k :: k in known ==> !After(k.date, target)
    ensures Guarded(ordered, byKey) && forall k :: k in byKey <==> k in known
  {
    byKey, ordered := {}, [];
    for i := 0 to |known|
      invariant Guarded(ordered, byKey)
      invariant forall x :: x in byKey <==> x in known[..i]
    {
      assert known[i] in known && known[..i + 1] == known[..i] + [known[i]];
      if !After(known[i].date, target) {
        ordered, byKey := Add(ordered, byKey, known[i]);
      }
    }
    assert known[..|known|] == known;
  }

  predicate DaysBetween(source: SourceID, first: int, end: int, k: CollectionKey) {
    k.source == source && first <= DayNumber(k.date) < end
  }

  method AddWindow(ordered0: seq<CollectionKey>, byKey0: set<CollectionKey>, source: SourceID, start: CollectionDate, target: CollectionDate)
    returns (ordered: seq<CollectionKey>, byKey: set<CollectionKey>)
    requires Guarded(ordered0, byKey0)
    ensures Guarded(ordered, byKey)
    ensures forall k :: k in byKey <==> k in byKey0 || DaysBetween(source, DayNumber(start), DayNumber(target) + 1, k)
  {
    ordered, byKey := ordered0, byKey0;
    var d := start;
    while !After(d, target)
      invariant Guarded(ordered, byKey)
      invariant DayNumber(d) >= DayNumber(start) && (DayNumber(d) > DayNumber(start) ==> DayNumber(d) <= DayNumber(target) + 1)
      invariant forall x :: x in byKey <==> x in byKey0 || DaysBetween(source, DayNumber(start), DayNumber(d), x)
      decreases DayNumber(target) + 1 - DayNumber(d)
    {
      CompareIsDayOrder(d, target);
      DayIsUnique(source, d);
      ordered, byKey := Add(ordered, byKey, CollectionKey(source, d));
      AddDaysNumber(d, 1);
      d := AddDays(d, 1);
    }
    CompareIsDayOrder(d, target);
  }

  // `keys` lists exactly what is planned, each key once.
  ghost predicate IsPlan(l: Ledger, source: SourceID, target: CollectionDate, catchupDays: int, now: Time, keys: seq<CollectionKey>) {
    && NoRepeats(keys)
    && (exists last :: PlanAfter(l, last, source, target, catchupDays, now, keys))
  }

  ghost predicate PlanAfter(l: Ledger, last: Option<CollectionDate>, source: SourceID, target: CollectionDate, catchupDays: int,
                            now: Time, keys: seq<CollectionKey>) {
    && IsLastCompleted(l, source, target, last)
    && forall k :: k in keys <==> IsPlanned(l, last, source, target, catchupDays, now, k)
  }

  /**
   Returns, without repeats, exactly the planned keys, unless the context is cancelled before the first reading of the state or,
   `later`, before the second.
   */
  method Plan(state: MemoryState, cancelled: bool, later: bool, source: SourceID, target: CollectionDate, catchupDays: int, now: Time)
    returns (r: Result<seq<CollectionKey>, StateError>)
    requires KeysAgree(state.View()) && (cancelled ==> later)
    ensures r.Failure? <==> later
    ensures r.Failure? ==> r.error == Cancelled
    ensures r.Success? ==> IsPlan(state.View(), source, target, catchupDays, now, r.value)
    ensures r.Success? ==> ListsWhatIsOwed(state.View(), source, target, catchupDays, now, r.value)
  {
    var known := state.ListIncomplete(cancelled, source, target, STALE_AFTER, now);
    if known.Failure? {
      return Failure(known.error);
    }
    var ordered, byKey := AddKnown(known.value, target);
    var completed := state.LastCompleted(later, source, target);
    if completed.Failure? {
      return Failure(completed.error);
    }
    var last := completed.value;
    var start, planGap := GapStart(last, target, catchupDays);
    if planGap {
      ordered, byKey := AddWindow(ordered, byKey, source, start, target);
    }
    assert PlanAfter(state.View(), last, source, target, catchupDays, now, ordered);
    PlanIsOwed(state.View(), source, target, catchupDays, now, ordered);
    return Success(ordered);
  }

  lemma DayIsUnique(source: SourceID, d: CollectionDate)
    ensures forall x: CollectionKey :: x.source == source && DayNumber(x.date) == DayNumber(d) ==> x == CollectionKey(source, d)
  {
    forall x: CollectionKey | x.source == source && DayNumber(x.date) == DayNumber(d) ensures x == CollectionKey(source, d) {
      CompareIsDayOrder(x.date, d);
    }
  }

  method GapStart(last: Option<CollectionDate>, target: CollectionDate, catchupDays: int)
    returns (start: CollectionDate, planGap: bool)
    requires last.Some? ==> !After(last.value, target)
    ensures planGap <==> WindowStart(last, target, catchupDays) <= DayNumber(target)
    ensures planGap ==> DayNumber(start) == WindowStart(last, target, catchupDays)
  {
    start, planGap := target, false;
    if last.Some? {
      AddDaysNumber(last.value, 1);
      start := AddDays(last.value, 1);
      CompareIsDayOrder(start, target);
      planGap := !After(start, target);
    }
    if catchupDays > 0 {
      var earliest := AddDays(target, -(catchupDays - 1));
      AddDaysNumber(target, -(catchupDays - 1));
      CompareIsDayOrder(start, earliest);
      if last.None? || Before(start, earliest) {
        start := earliest;
      }
      CompareIsDayOrder(start, target);
      planGap := !After(start, target);
    }
  }

  // Between two plans only the attempted keys were touched.
  ghost predicate OnlyTouched(l: Ledger, l': Ledger, attempted: set<CollectionKey>) {
    forall k :: k !in attempted ==> Find(l.collections, k) == Find(l'.collections, k)
  }

  /**
   A planned date that a pass leaves unattempted, all attempted ones being planned and earlier, is planned again for
   the same target, however the attempts ended.
   */
  lemma DeferredIsPlannedAgain(l: Ledger, l': Ledger, last: Option<CollectionDate>, last': Option<CollectionDate>,
                               attempted: set<CollectionKey>, source: SourceID, target: CollectionDate, catchupDays: int,
                               now: Time, now': Time, u: CollectionKey)
    requires IsLastCompleted(l, source, target, last) && IsLastCompleted(l', source, target, last')
    requires OnlyTouched(l, l', attempted) && now <= now'
    requires forall a :: a in attempted ==> IsPlanned(l, last, source, target, catchupDays, now, a) && Before(a.date, u.date)
    requires IsPlanned(l, last, source, target, catchupDays, now, u)
    ensures IsPlanned(l', last', source, target, catchupDays, now', u)
  {
    assert u !in attempted by { CompareIsDayOrder(u.date, u.date); }
    assert Find(l.collections, u) == Find(l'.collections, u);
    if !IsIncomplete(l, u, source, target, STALE_AFTER, now) {
      if last'.Some? {
        LastStaysBefore(l, l', last, last', attempted, source, target, catchupDays, now, u);
      }
      if last.Some? {
        LastStays(l, l', last, last', attempted, source, target, catchupDays, now, u);
      }
    }
  }

  lemma LastStaysBefore(l: Ledger, l': Ledger, last: Option<CollectionDate>, last': Option<CollectionDate>,
                        attempted: set<CollectionKey>, source: SourceID, target: CollectionDate, catchupDays: int,
                        now: Time, u: CollectionKey)
    requires IsLastCompleted(l, source, target, last) && IsLastCompleted(l', source, target, last') && last'.Some?
    requires OnlyTouched(l, l', attempted) && InWindow(last, source, target, catchupDays, u)
    requires forall a :: a in attempted ==> Before(a.date, u.date)
    ensures DayNumber(last'.value) < DayNumber(u.date)
  {
    var k := CollectionKey(source, last'.value);
    if k in attempted {
      CompareIsDayOrder(k.date, u.date);
    } else {
      assert Find(l.collections, k) == Find(l'.collections, k) && IsSucceeded(l, k, source, target);
      CompareIsDayOrder(k.date, last.value);
    }
  }

  lemma LastStays(l: Ledger, l': Ledger, last: Option<CollectionDate>, last': Option<CollectionDate>,
                  attempted: set<CollectionKey>, source: SourceID, target: CollectionDate, catchupDays: int,
                  now: Time, u: CollectionKey)
    requires IsLastCompleted(l, source, target, last) && IsLastCompleted(l', source, target, last') && last.Some?
    requires OnlyTouched(l, l', attempted)
    requires forall a :: a in attempted ==> IsPlanned(l, last, source, target, catchupDays, now, a)
    ensures last'.Some?
  {
    var k := CollectionKey(source, last.value);
    assert k !in attempted;
    assert Find(l.collections, k) == Find(l'.collections, k) && IsSucceeded(l', k, source, target);
  }
}
