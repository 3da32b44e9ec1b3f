/** The application's values: business dates, collection keys, files, records and batches. */
module Model {
  import opened Text

  // ---------------------------------------------------------------- business dates

  predicate Leap(y: int) {
    y % 4 == 0 && (y % 100 != 0 || y % 400 == 0)
  }

  function DaysIn(y: int, m: int): int {
    if m == 2 then (if Leap(y) then 29 else 28)
    else if m == 4 || m == 6 || m == 9 || m == 11 then 30 else 31
  }

  datatype Civil = Civil(year: int, month: int, day: int)

  predicate ValidDate(d: Civil) {
    1 <= d.month <= 12 && 1 <= d.day <= DaysIn(d.year, d.month)
  }

  // One business date: a calendar date, not an instant.
  type CollectionDate = d: Civil | ValidDate(d) witness Civil(1, 1, 1)

  function CompareDate(a: CollectionDate, b: CollectionDate): int {
    if a.year != b.year then (if a.year < b.year then -1 else 1)
    else if a.month != b.month then (if a.month < b.month then -1 else 1)
    else if a.day != b.day then (if a.day < b.day then -1 else 1)
    else 0
  }

  predicate Before(a: CollectionDate, b: CollectionDate) { CompareDate(a, b) < 0 }

  predicate After(a: CollectionDate, b: CollectionDate) { CompareDate(a, b) > 0 }

  function NextDay(d: CollectionDate): CollectionDate {
    if d.day < DaysIn(d.year, d.month) then Civil(d.year, d.month, d.day + 1)
    else if d.month < 12 then Civil(d.year, d.month + 1, 1)
    else Civil(d.year + 1, 1, 1)
  }

  function PrevDay(d: CollectionDate): CollectionDate {
    if d.day > 1 then Civil(d.year, d.month, d.day - 1)
    else if d.month > 1 then Civil(d.year, d.month - 1, DaysIn(d.year, d.month - 1))
    else Civil(d.year - 1, 12, 31)
  }

  // AddDate(0, 0, n).
  function AddDays(d: CollectionDate, n: int): CollectionDate
    decreases if n < 0 then -n else n
  {
    if n == 0 then d else if n > 0 then AddDays(NextDay(d), n - 1) else AddDays(PrevDay(d), n + 1)
  }

  function DaysBeforeYear(y: int): int {
    365 * y + (y + 3) / 4 - (y + 99) / 100 + (y + 399) / 400
  }

  function DaysBeforeMonth(y: int, m: int): int
    requires 1 <= m <= 12
  {
    [0, 31, 59, 90, 120, 151, 181, 212, 243, 273, 304, 334][m - 1] + (if m > 2 && Leap(y) then 1 else 0)
  }

  // The position of a date on the day line: what differences of dates are measured by.
  function DayNumber(d: CollectionDate): int {
    DaysBeforeYear(d.year) + DaysBeforeMonth(d.year, d.month) + d.day
  }

  lemma Every4(y: int)
    ensures (y + 4) / 4 == (y + 3) / 4 + (if y % 4 == 0 then 1 else 0)
  {
  }

  lemma Every100(y: int)
    ensures (y + 100) / 100 == (y + 99) / 100 + (if y % 100 == 0 then 1 else 0)
  {
  }

  lemma Every400(y: int)
    ensures (y + 400) / 400 == (y + 399) / 400 + (if y % 400 == 0 then 1 else 0)
  {
  }

  lemma Centuries(y: int)
    ensures y % 400 == 0 ==> y % 100 == 0
    ensures y % 100 == 0 ==> y % 4 == 0
  {
  }

  lemma YearStep(y: int)
    ensures DaysBeforeYear(y + 1) == DaysBeforeYear(y) + (if Leap(y) then 366 else 365)
  {
    var y' := y + 1;
    assert y' + 3 == y + 4 && y' + 99 == y + 100 && y' + 399 == y + 400;
    Every4(y);
    Every100(y);
    Every400(y);
    Centuries(y);
  }

  lemma {:induction false} YearsMonotone(a: int, b: int)
    requires a <= b
    ensures DaysBeforeYear(a) + 365 * (b - a) <= DaysBeforeYear(b)
    decreases b - a
  {
    if a < b {
      YearsMonotone(a, b - 1);
      YearStep(b - 1);
    }
  }

  lemma MonthStep(y: int, m: int)
    requires 1 <= m <= 12
    ensures m < 12 ==> DaysBeforeMonth(y, m + 1) == DaysBeforeMonth(y, m) + DaysIn(y, m)
    ensures m == 12 ==> DaysBeforeMonth(y, m) + DaysIn(y, m) == if Leap(y) then 366 else 365
  {
  }

  lemma {:induction false} MonthsMonotone(y: int, a: int, b: int)
    requires 1 <= a < b <= 12
    ensures DaysBeforeMonth(y, a) + DaysIn(y, a) <= DaysBeforeMonth(y, b)
    decreases b - a
  {
  }

  lemma InYear(d: CollectionDate)
    ensures DaysBeforeYear(d.year) < DayNumber(d) <= DaysBeforeYear(d.year + 1)
  {
    YearStep(d.year);
    MonthStep(d.year, 12);
    if d.month < 12 { MonthsMonotone(d.year, d.month, 12); }
  }

  lemma BeforeThenSmaller(a: CollectionDate, b: CollectionDate)
    requires Before(a, b)
    ensures DayNumber(a) < DayNumber(b)
  {
    if a.year < b.year {
      InYear(a);
      InYear(b);
      YearsMonotone(a.year + 1, b.year);
    } else if a.month < b.month {
      MonthsMonotone(a.year, a.month, b.month);
    }
  }

  /** The calendar comparison is the order of the day line, and a date is determined by its place on it. */
  lemma CompareIsDayOrder(a: CollectionDate, b: CollectionDate)
    ensures Before(a, b) <==> DayNumber(a) < DayNumber(b)
    ensures After(a, b) <==> DayNumber(a) > DayNumber(b)
    ensures a == b <==> DayNumber(a) == DayNumber(b)
  {
    if Before(a, b) { BeforeThenSmaller(a, b); }
    if Before(b, a) { BeforeThenSmaller(b, a); }
  }

  lemma NextDayNumber(d: CollectionDate)
    ensures DayNumber(NextDay(d)) == DayNumber(d) + 1
  {
    MonthStep(d.year, d.month);
    YearStep(d.year);
  }

  lemma PrevDayNumber(d: CollectionDate)
    ensures DayNumber(PrevDay(d)) == DayNumber(d) - 1
  {
    if d.month > 1 { MonthStep(d.year, d.month - 1); }
    YearStep(d.year - 1);
    MonthStep(d.year - 1, 12);
  }

  /** Adding days moves along the day line. */
  lemma {:induction false} AddDaysNumber(d: CollectionDate, n: int)
    ensures DayNumber(AddDays(d, n)) == DayNumber(d) + n
    decreases if n < 0 then -n else n
  {
    if n > 0 {
      NextDayNumber(d);
      AddDaysNumber(NextDay(d), n - 1);
    } else if n < 0 {
      PrevDayNumber(d);
      AddDaysNumber(PrevDay(d), n + 1);
    }
  }

  /** The calendar repeats after 400 years, which are 146097 days. */
  lemma CalendarRepeats(d: CollectionDate)
    ensures var later := Civil(d.year + 400, d.month, d.day);
      ValidDate(later) && DayNumber(later) == DayNumber(d) + 146097
  {
    LeapRepeats(d.year);
    FourCenturies(d.year);
    SameMonths(d.year + 400, d.year, d.month);
  }

  lemma LeapRepeats(y: int)
    ensures Leap(y + 400) <==> Leap(y)
  {
    In4(y);
    In100(y);
    In400(y);
  }

  lemma In4(y: int)
    ensures (y + 400) % 4 == y % 4
  {
  }

  lemma In100(y: int)
    ensures (y + 400) % 100 == y % 100
  {
  }

  lemma In400(y: int)
    ensures (y + 400) % 400 == y % 400
  {
  }

  lemma SameMonths(x: int, y: int, m: int)
    requires 1 <= m <= 12 && (Leap(x) <==> Leap(y))
    ensures DaysBeforeMonth(x, m) == DaysBeforeMonth(y, m) && DaysIn(x, m) == DaysIn(y, m)
  {
  }

  lemma FourCenturies(y: int)
    ensures DaysBeforeYear(y + 400) == DaysBeforeYear(y) + 146097
  {
    assert (y + 400 + 3) / 4 == (y + 3) / 4 + 100;
    assert (y + 400 + 99) / 100 == (y + 99) / 100 + 4;
    assert (y + 400 + 399) / 400 == (y + 399) / 400 + 1;
  }

  /** Known dates: the day on which the clocks start, and the ends of February of four kinds of year. */
  lemma KnownDates()
    ensures DayNumber(Civil(2000, 3, 1)) - DayNumber(Civil(1970, 1, 1)) == 11017
    ensures NextDay(Civil(2024, 2, 28)) == Civil(2024, 2, 29) && NextDay(Civil(2023, 2, 28)) == Civil(2023, 3, 1)
    ensures NextDay(Civil(1900, 2, 28)) == Civil(1900, 3, 1) && NextDay(Civil(2000, 2, 28)) == Civil(2000, 2, 29)
    ensures AddDays(Civil(2026, 1, 1), -1) == Civil(2025, 12, 31) && AddDays(Civil(2025, 12, 31), 1) == Civil(2026, 1, 1)
  {
  }

  // ---------------------------------------------------------------- keys, files and records

  type SourceID = string

  datatype CollectionKey = CollectionKey(source: SourceID, date: CollectionDate)

  // Times are nanoseconds on one clock.
  type Time = int

  datatype FileIdentity = FileIdentity(source: SourceID, path: string, name: string, size: int, modTime: Time, hash: string)

  // The text used for file-level idempotency: the content hash when there is one, else size and modification time.
  function Identity(f: FileIdentity): string {
    if f.hash != "" then f.source + "|" + f.path + "|" + f.hash
    else f.source + "|" + f.path + "|" + ItoaSigned(f.size) + "|" + ItoaSigned(f.modTime)
  }

  // A bar separates what has none from what follows it.
  lemma BarSplits(a: string, x: string, b: string, y: string)
    requires '|' !in a && '|' !in b && a + "|" + x == b + "|" + y
    ensures a == b && x == y
  {
    var s := a + "|" + x;
    assert s == b + "|" + y;
    assert s[|a|] == '|' && s[|b|] == '|';
    assert forall i :: 0 <= i < |a| ==> s[i] == a[i] && a[i] in a;
    assert forall i :: 0 <= i < |b| ==> s[i] == b[i] && b[i] in b;
    assert |a| == |b|;
    assert a == s[..|a|] && b == s[..|b|] && x == s[|a| + 1..] && y == s[|b| + 1..];
  }

  lemma SignedHasNoBar(n: int)
    ensures '|' !in ItoaSigned(n)
  {
    var s := if n < 0 then Itoa(-n) else Itoa(n);
    assert forall i :: 0 <= i < |s| ==> IsDigit(s[i]);
    assert !IsDigit('|');
  }

  // What follows source and path in an identity.
  function Version(f: FileIdentity): string {
    if f.hash != "" then f.hash else ItoaSigned(f.size) + "|" + ItoaSigned(f.modTime)
  }

  lemma IdentityParts(f: FileIdentity)
    ensures Identity(f) == f.source + "|" + (f.path + "|" + Version(f))
  {
    if f.hash != "" {
      assert Identity(f) == f.source + "|" + (f.path + "|" + f.hash);
    } else {
      assert Identity(f) == f.source + "|" + (f.path + "|" + (ItoaSigned(f.size) + "|" + ItoaSigned(f.modTime)));
    }
  }

  /**
   A changed file is a new file: of one source and path, two files without a hash are told apart exactly by size and modification
   time, and two with hashes exactly by these.
   */
  lemma SameVersionIff(f: FileIdentity, g: FileIdentity)
    requires f.source == g.source && f.path == g.path && (f.hash == "" <==> g.hash == "")
    ensures Identity(f) == Identity(g) <==> if f.hash == "" then f.size == g.size && f.modTime == g.modTime else f.hash == g.hash
  {
    IdentityParts(f);
    IdentityParts(g);
    SameBehind(f.path + "|", Version(f), Version(g));
    SameBehind(f.source + "|", f.path + "|" + Version(f), f.path + "|" + Version(g));
    if f.hash == "" { SameStamps(f.size, f.modTime, g.size, g.modTime); }
  }

  lemma SameBehind(head: string, x: string, y: string)
    ensures head + x == head + y <==> x == y
  {
    assert (head + x)[|head|..] == x && (head + y)[|head|..] == y;
  }

  lemma SameStamps(a: int, b: int, c: int, d: int)
    ensures ItoaSigned(a) + "|" + ItoaSigned(b) == ItoaSigned(c) + "|" + ItoaSigned(d) <==> a == c && b == d
  {
    if ItoaSigned(a) + "|" + ItoaSigned(b) == ItoaSigned(c) + "|" + ItoaSigned(d) {
      SignedHasNoBar(a);
      SignedHasNoBar(c);
      BarSplits(ItoaSigned(a), ItoaSigned(b), ItoaSigned(c), ItoaSigned(d));
      ItoaSignedInjective(a, c);
      ItoaSignedInjective(b, d);
    }
  }

  // The longer path goes on, behind a bar, with what the shorter one's version begins with.
  ghost predicate Shadows(f: FileIdentity, g: FileIdentity) {
    exists x: string :: g.path == f.path + "|" + x && Version(f) == x + "|" + Version(g)
  }

  lemma ShadowsIff(f: FileIdentity, g: FileIdentity)
    requires |f.path| < |g.path|
    ensures f.path + "|" + Version(f) == g.path + "|" + Version(g) <==> Shadows(f, g)
  {
    var p, q, v, w := f.path, g.path, Version(f), Version(g);
    if p + "|" + v == q + "|" + w {
      var s := p + "|" + v;
      assert s == q + "|" + w;
      assert q == s[..|q|] && p == s[..|p|] && s[|p|] == '|';
      var x := q[|p| + 1..];
      assert q == p + "|" + x;
      assert v == s[|p| + 1..] == x + "|" + w;
    }
    if Shadows(f, g) {
      var x: string :| q == p + "|" + x && v == x + "|" + w;
      assert p + "|" + (x + "|" + w) == (p + "|" + x) + "|" + w;
    }
  }

  lemma SamePathsAlike(f: FileIdentity, g: FileIdentity)
    requires |f.path| == |g.path|
    ensures f.path + "|" + Version(f) == g.path + "|" + Version(g) <==> f.path == g.path && Version(f) == Version(g)
  {
    var s, t := f.path + "|" + Version(f), g.path + "|" + Version(g);
    assert s[..|f.path|] == f.path && t[..|f.path|] == g.path && s[|f.path| + 1..] == Version(f) && t[|f.path| + 1..] == Version(g);
  }

  /**
   Exactly when: two files of one source have one identity if and only if path and version are the same, or a bar in one of the
   paths shadows the other file.
   */
  lemma SameIdentityIff(f: FileIdentity, g: FileIdentity)
    requires f.source == g.source
    ensures Identity(f) == Identity(g) <==> (f.path == g.path && Version(f) == Version(g)) || Shadows(f, g) || Shadows(g, f)
  {
    IdentityParts(f);
    IdentityParts(g);
    SameBehind(f.source + "|", f.path + "|" + Version(f), g.path + "|" + Version(g));
    if |f.path| < |g.path| {
      ShadowsIff(f, g);
    } else if |g.path| < |f.path| {
      ShadowsIff(g, f);
    } else {
      SamePathsAlike(f, g);
    }
  }

  // A SHA-256 sum in hexadecimal, or none.
  predicate IsSum(hash: string) {
    hash == "" || (|hash| == 64 && '|' !in hash)
  }

  predicate IsInt64(n: int) {
    -0x8000_0000_0000_0000 <= n < 0x8000_0000_0000_0000
  }

  predicate Discovered(f: FileIdentity) {
    IsSum(f.hash) && IsInt64(f.modTime)
  }

  lemma {:induction false} ItoaLength(n: nat, most: nat, limit: nat)
    requires n < limit && limit == Power10(most) && most > 0
    ensures |Itoa(n)| <= most
    decreases most
  {
    if n >= 10 {
      assert most > 1;
      ItoaLength(n / 10, most - 1, Power10(most - 1));
    }
  }

  function Power10(k: nat): nat {
    if k == 0 then 1 else 10 * Power10(k - 1)
  }

  lemma StampIsNoSum(n: int)
    requires IsInt64(n)
    ensures |ItoaSigned(n)| < 64
  {
    assert Power10(10) == 10000000000;
    assert Power10(20) == 100000000000000000000;
    ItoaLength(if n < 0 then -n else n, 20, Power10(20));
  }

  // What a bar in a version splits off is a size, and what follows it a time: no sum, and no version of its own.
  lemma NothingShadows(f: FileIdentity, g: FileIdentity)
    requires Discovered(f) && Discovered(g)
    ensures !Shadows(f, g)
  {
    if x: string :| g.path == f.path + "|" + x && Version(f) == x + "|" + Version(g) {
      assert Version(f)[|x|] == '|';
      assert f.hash == "";
      SignedHasNoBar(f.size);
      SignedHasNoBar(f.modTime);
      StampIsNoSum(f.modTime);
      BarBehind(ItoaSigned(f.size), ItoaSigned(f.modTime), x, Version(g));
      StampsHaveBar(g);
    }
  }

  lemma StampsHaveBar(f: FileIdentity)
    ensures f.hash == "" ==> '|' in Version(f)
  {
    if f.hash == "" { assert Version(f)[|ItoaSigned(f.size)|] == '|'; }
  }

  lemma BarBehind(a: string, b: string, x: string, y: string)
    requires '|' !in a && '|' !in b && a + "|" + b == x + "|" + y
    ensures y == b
  {
    var s := a + "|" + b;
    assert s == x + "|" + y;
    assert s[|x|] == '|';
    assert forall i :: 0 <= i < |a| ==> s[i] == a[i] && a[i] in a;
    assert forall i :: |a| < i < |s| ==> s[i] == b[i - |a| - 1] && b[i - |a| - 1] in b;
    assert |x| == |a|;
    assert y == s[|x| + 1..] && b == s[|a| + 1..];
  }

  lemma SumIsNoStamp(f: FileIdentity, g: FileIdentity)
    requires IsSum(f.hash) && f.hash != "" && g.hash == ""
    ensures Version(f) != Version(g)
  {
    StampsHaveBar(g);
  }

  lemma SourceTells(f: FileIdentity, g: FileIdentity)
    requires '|' !in f.source && '|' !in g.source && Identity(f) == Identity(g)
    ensures f.source == g.source
  {
    IdentityParts(f);
    IdentityParts(g);
    BarSplits(f.source, f.path + "|" + Version(f), g.source, g.path + "|" + Version(g));
  }

  /**
   Exactly when: of the files that sources discover, whatever their paths, two have one identity if and only if they have one source
   and path and the same sum, or, without sums, the same size and modification time.
   */
  lemma DiscoveredApartIff(f: FileIdentity, g: FileIdentity)
    requires Discovered(f) && Discovered(g) && (f.source == g.source || ('|' !in f.source && '|' !in g.source))
    ensures Identity(f) == Identity(g)
      <==> f.source == g.source && f.path == g.path && f.hash == g.hash
           && (f.hash == "" ==> f.size == g.size && f.modTime == g.modTime)
  {
    if f.source == g.source {
      SameIdentityIff(f, g);
      NothingShadows(f, g);
      NothingShadows(g, f);
      if f.hash == "" && g.hash == "" {
        SameStamps(f.size, f.modTime, g.size, g.modTime);
      } else if f.hash == "" {
        SumIsNoStamp(g, f);
      } else if g.hash == "" {
        SumIsNoStamp(f, g);
      }
    } else if Identity(f) == Identity(g) {
      SourceTells(f, g);
    }
  }

  datatype Record = Record(rowNumber: int, fields: seq<string>)

  datatype Batch = Batch(key: CollectionKey, file: FileIdentity, records: seq<Record>, sequence: nat, header: seq<string>)

  datatype Status = Pending | Running | Succeeded | Failed | Skipped
}
