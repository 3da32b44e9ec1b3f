/** The columns a decoded header gives: cleaned names, numbered occurrences, and suffixes for repeated names. */
module HeaderNames {
  import opened Text

  datatype ColumnSource = Csv | Metadata

  datatype ColumnType = TextColumn | TypedColumn(sqlType: string)

  datatype ColumnMapping = ColumnMapping(from: ColumnSource, name: string, column: string, typ: ColumnType,
                                         required: bool, occurrence: nat)

  // ---------------------------------------------------------------- header cleaning

  // unicode.IsSpace.
  predicate IsSpace(c: char) {
    || '\t' <= c <= '\r' || c == ' ' || c == '\U{85}' || c == '\U{A0}' || c == '\U{1680}'
    || '\U{2000}' <= c <= '\U{200A}' || c == '\U{2028}' || c == '\U{2029}' || c == '\U{202F}' || c == '\U{205F}'
    || c == '\U{3000}'
  }

  function TrimLeft(s: string): string {
    if s != "" && IsSpace(s[0]) then TrimLeft(s[1..]) else s
  }

  function TrimRight(s: string): string {
    if s != "" && IsSpace(s[|s| - 1]) then TrimRight(s[..|s| - 1]) else s
  }

  function TrimSpace(s: string): string {
    TrimRight(TrimLeft(s))
  }

  function DropControl(s: string): string {
    if s == "" then "" else (if s[0] < ' ' || s[0] == '\U{7F}' then "" else [s[0]]) + DropControl(s[1..])
  }

  // The name under which a header field is counted; empty for a field that makes no column.
  function Clean(raw: string): string {
    TrimSpace(DropControl(TrimSpace(raw)))
  }

  predicate Spaces(s: string) {
    forall i :: 0 <= i < |s| ==> IsSpace(s[i])
  }

  predicate Tidy(s: string) {
    s == "" || (!IsSpace(s[0]) && !IsSpace(s[|s| - 1]))
  }

  // `w` is what is left of `s` without the space around it.
  ghost predicate TrimsTo(s: string, w: string) {
    Tidy(w) && exists a: string, b: string :: InSpace(s, a, w, b)
  }

  predicate InSpace(s: string, a: string, w: string, b: string) {
    Spaces(a) && Spaces(b) && s == a + w + b
  }

  lemma {:induction false} TrimLeftSplits(s: string) returns (a: string)
    ensures Spaces(a) && s == a + TrimLeft(s) && (TrimLeft(s) != "" ==> !IsSpace(TrimLeft(s)[0]))
    decreases |s|
  {
    a := "";
    if s != "" && IsSpace(s[0]) {
      var rest := TrimLeftSplits(s[1..]);
      a := [s[0]] + rest;
      assert s == [s[0]] + (rest + TrimLeft(s[1..]));
    }
  }

  lemma {:induction false} TrimRightSplits(s: string) returns (b: string)
    ensures Spaces(b) && s == TrimRight(s) + b && (TrimRight(s) != "" ==> !IsSpace(TrimRight(s)[|TrimRight(s)| - 1]))
    decreases |s|
  {
    b := "";
    if s != "" && IsSpace(s[|s| - 1]) {
      var n := |s| - 1;
      var rest := TrimRightSplits(s[..n]);
      b := rest + [s[n]];
      assert s == s[..n] + [s[n]] == TrimRight(s[..n]) + rest + [s[n]];
      assert s == TrimRight(s) + b;
    }
  }

  lemma TrimSpaceTrims(s: string)
    ensures TrimsTo(s, TrimSpace(s))
  {
    var a := TrimLeftSplits(s);
    var b := TrimRightSplits(TrimLeft(s));
    assert TrimSpace(s) != "" ==> TrimSpace(s)[0] == TrimLeft(s)[0];
    assert s == a + TrimSpace(s) + b && InSpace(s, a, TrimSpace(s), b);
  }

  // The first character that is no space is where the tidy part begins.
  lemma NoLongerLead(a: string, w: string, b: string, c: string, v: string, d: string)
    requires Spaces(c) && a + w + b == c + v + d && w != "" && Tidy(w)
    ensures |c| <= |a|
  {
    var s := a + w + b;
    assert s == c + v + d && s[|a|] == w[0];
    assert forall i :: 0 <= i < |c| ==> s[i] == c[i];
  }

  lemma NoLongerTail(a: string, w: string, b: string, c: string, v: string, d: string)
    requires Spaces(d) && a + w + b == c + v + d && w != "" && Tidy(w)
    ensures |d| <= |b|
  {
    var s := a + w + b;
    assert s == c + v + d && s[|a| + |w| - 1] == w[|w| - 1];
    assert forall i :: |c| + |v| <= i < |s| ==> s[i] == d[i - |c| - |v|];
  }

  lemma TrimIsUnique(s: string, w: string, v: string)
    requires TrimsTo(s, w) && TrimsTo(s, v)
    ensures w == v
  {
    var a: string, b: string :| InSpace(s, a, w, b);
    var c: string, d: string :| InSpace(s, c, v, d);
    assert |s| == |a| + |w| + |b| == |c| + |v| + |d|;
    if w != "" {
      NoLongerLead(a, w, b, c, v, d);
      NoLongerTail(a, w, b, c, v, d);
    }
    if v != "" {
      NoLongerLead(c, v, d, a, w, b);
      NoLongerTail(c, v, d, a, w, b);
    }
    if w != "" || v != "" {
      assert w == s[|a|..|a| + |w|] && v == s[|c|..|c| + |v|];
    }
  }

  predicate IsControl(c: char) {
    c as int < 32 || c as int == 127
  }

  /** Control characters are dropped one by one, wherever they stand, and nothing else is. */
  lemma {:induction false} DropControlJoins(a: string, b: string)
    ensures DropControl(a + b) == DropControl(a) + DropControl(b)
    ensures |a| == 1 ==> DropControl(a) == if IsControl(a[0]) then "" else a
    decreases |a|
  {
    if a == "" {
      assert a + b == b && DropControl(a) + DropControl(b) == DropControl(b);
    } else {
      DropControlJoins(a[1..], b);
      HeadStays(a, b);
      DropControlStep(a);
      DropControlStep(a + b);
      Associative(if IsControl(a[0]) then "" else [a[0]], DropControl(a[1..]), DropControl(b));
      if |a| == 1 { assert a == [a[0]]; }
    }
  }

  lemma HeadStays(a: string, b: string)
    requires a != ""
    ensures (a + b)[1..] == a[1..] + b && (a + b)[0] == a[0]
  {
  }

  lemma Associative(a: string, b: string, c: string)
    ensures a + (b + c) == (a + b) + c
  {
  }

  lemma DropControlStep(s: string)
    requires s != ""
    ensures DropControl(s) == (if IsControl(s[0]) then "" else [s[0]]) + DropControl(s[1..])
  {
  }

  lemma {:induction false} DropKeepsSpaces(a: string)
    requires Spaces(a)
    ensures Spaces(DropControl(a))
    decreases |a|
  {
    if a != "" { DropKeepsSpaces(a[1..]); }
  }

  lemma WiderTrim(s: string, w: string, a: string, b: string)
    requires TrimsTo(s, w) && Spaces(a) && Spaces(b)
    ensures TrimsTo(a + s + b, w)
  {
    var c: string, d: string :| InSpace(s, c, w, d);
    Regroup(a, c, w, d, b);
    assert InSpace(a + s + b, a + c, w, d + b);
  }

  lemma Regroup(a: string, c: string, w: string, d: string, b: string)
    ensures a + (c + w + d) + b == (a + c) + w + (d + b)
  {
  }

  /** The name of a header field is what is left of it without its control characters and then without the space around it. */
  lemma CleanIff(raw: string, w: string)
    ensures Clean(raw) == w <==> TrimsTo(DropControl(raw), w)
  {
    var t := TrimSpace(raw);
    TrimSpaceTrims(raw);
    var a: string, b: string :| InSpace(raw, a, t, b);
    DropControlJoins(a + t, b);
    DropControlJoins(a, t);
    DropKeepsSpaces(a);
    DropKeepsSpaces(b);
    TrimSpaceTrims(DropControl(t));
    WiderTrim(DropControl(t), Clean(raw), DropControl(a), DropControl(b));
    if TrimsTo(DropControl(raw), w) { TrimIsUnique(DropControl(raw), Clean(raw), w); }
  }

  function Cleaned(header: seq<string>): (r: seq<string>)
    ensures |r| == |header| && forall i :: 0 <= i < |header| ==> r[i] == Clean(header[i])
  {
    seq(|header|, i requires 0 <= i < |header| => Clean(header[i]))
  }

  lemma CleanedPrefix(header: seq<string>, n: nat)
    requires n <= |header|
    ensures Cleaned(header[..n]) == Cleaned(header)[..n]
  {
  }

  // ---------------------------------------------------------------- free names

  function Fold(lower: char -> char, s: string): (r: string)
    ensures |r| == |s| && forall i :: 0 <= i < |s| ==> r[i] == lower(s[i])
  {
    seq(|s|, i requires 0 <= i < |s| => lower(s[i]))
  }

  ghost predicate KeepsDigits(lower: char -> char) {
    forall c :: IsDigit(c) ==> lower(c) == c
  }

  function Suffixed(base: string, n: nat): string {
    base + "__" + Itoa(n)
  }

  lemma SuffixedInjective(lower: char -> char, base: string, a: nat, b: nat)
    requires KeepsDigits(lower) && Fold(lower, Suffixed(base, a)) == Fold(lower, Suffixed(base, b))
    ensures a == b
  {
    var x, y, k := Suffixed(base, a), Suffixed(base, b), |base| + 2;
    assert |x| == |y|;
    forall i | 0 <= i < |Itoa(a)| ensures Itoa(a)[i] == Itoa(b)[i] {
      assert x[k + i] == Itoa(a)[i] && y[k + i] == Itoa(b)[i];
      assert Fold(lower, x)[k + i] == Fold(lower, y)[k + i];
    }
    ItoaInjective(a, b);
  }

  // The taken names that some suffix from `n` on would produce: finitely many, and one fewer each time a suffix fails.
  ghost function Blocked(lower: char -> char, base: string, n: nat, taken: set<string>): set<string> {
    set t | t in taken && exists k: nat :: k >= n && Fold(lower, Suffixed(base, k)) == t
  }

  lemma BlockedShrinks(lower: char -> char, base: string, n: nat, taken: set<string>)
    requires KeepsDigits(lower) && Fold(lower, Suffixed(base, n)) in taken
    ensures Blocked(lower, base, n + 1, taken) < Blocked(lower, base, n, taken)
  {
    var t := Fold(lower, Suffixed(base, n));
    forall k: nat | k >= n + 1 ensures Fold(lower, Suffixed(base, k)) != t {
      if Fold(lower, Suffixed(base, k)) == t { SuffixedInjective(lower, base, k, n); }
    }
    assert t in Blocked(lower, base, n, taken) && t !in Blocked(lower, base, n + 1, taken);
  }

  // The smallest suffix from `n` on whose name is not taken.
  ghost function FirstFree(lower: char -> char, base: string, n: nat, taken: set<string>): (k: nat)
    requires KeepsDigits(lower)
    ensures k >= n && Fold(lower, Suffixed(base, k)) !in taken
    ensures forall m: nat :: n <= m < k ==> Fold(lower, Suffixed(base, m)) in taken
    decreases Blocked(lower, base, n, taken)
  {
    if Fold(lower, Suffixed(base, n)) !in taken then n else
      BlockedShrinks(lower, base, n, taken);
      FirstFree(lower, base, n + 1, taken)
  }

  function Same(): char -> char {
    c => c
  }

  lemma FoldSame(s: string)
    ensures Fold(Same(), s) == s
  {
  }

  // ---------------------------------------------------------------- deriving

  function ColumnNames(cols: seq<ColumnMapping>): set<string> {
    set i | 0 <= i < |cols| :: cols[i].column
  }

  ghost function DerivedName(name: string, occ: nat, used: set<string>): string {
    if occ == 0 then name else Suffixed(name, FirstFree(Same(), name, occ + 1, used))
  }

  // The columns of a header, one for each field with a name, in order.
  ghost function Derived(header: seq<string>): seq<ColumnMapping> {
    if header == [] then [] else
      var n := |header| - 1;
      var cols, name := Derived(header[..n]), Clean(header[n]);
      if name == "" then cols else
        var occ := Count(Cleaned(header[..n]), name);
        cols + [ColumnMapping(Csv, header[n], DerivedName(name, occ, ColumnNames(cols)), TextColumn, false, occ)]
  }

  // The column at `p` is named by the rule: the first of a name bears it, and a repeated one the first suffix beyond its count of
  // occurrences that no column on its left has.
  ghost predicate NamedByRule(cols: seq<ColumnMapping>, p: nat)
    requires p < |cols|
  {
    var c := cols[p];
    var name := Clean(c.name);
    && name != "" && c == ColumnMapping(Csv, c.name, c.column, TextColumn, false, c.occurrence)
    && if c.occurrence == 0 then c.column == name else FirstFreeSuffix(cols, p, name, c.column)
  }

  predicate IsNumbered(column: string, name: string, k: nat) {
    column == name + "__" + Itoa(k)
  }

  ghost predicate FirstFreeSuffix(cols: seq<ColumnMapping>, p: nat, name: string, column: string)
    requires p < |cols|
  {
    exists k: nat ::
      && k > cols[p].occurrence && IsNumbered(column, name, k) && column !in ColumnNames(cols[..p])
      && forall m: nat :: cols[p].occurrence < m < k ==> name + "__" + Itoa(m) in ColumnNames(cols[..p])
  }

  lemma NewIsNamedByRule(cols: seq<ColumnMapping>, raw: string, occ: nat)
    requires Clean(raw) != ""
    ensures var c := ColumnMapping(Csv, raw, DerivedName(Clean(raw), occ, ColumnNames(cols)), TextColumn, false, occ);
      NamedByRule(cols + [c], |cols|)
  {
    var name, used := Clean(raw), ColumnNames(cols);
    var all := cols + [ColumnMapping(Csv, raw, DerivedName(name, occ, used), TextColumn, false, occ)];
    assert all[..|cols|] == cols;
    if occ > 0 {
      var k := FirstFree(Same(), name, occ + 1, used);
      FoldSame(Suffixed(name, k));
      forall m: nat | occ < m < k ensures name + "__" + Itoa(m) in used { FoldSame(Suffixed(name, m)); }
      assert IsNumbered(all[|cols|].column, name, k);
    }
  }

  lemma NamedInFront(cols: seq<ColumnMapping>, c: ColumnMapping, p: nat)
    requires p < |cols| && NamedByRule(cols, p)
    ensures NamedByRule(cols + [c], p)
  {
    assert (cols + [c])[..p] == cols[..p];
  }

  /** Every derived column is named by the rule. */
  lemma {:induction false} DerivedByRule(header: seq<string>, p: nat)
    requires p < |Derived(header)|
    ensures NamedByRule(Derived(header), p)
    decreases |header|
  {
    var n := |header| - 1;
    var cols, name := Derived(header[..n]), Clean(header[n]);
    if name == "" {
      DerivedByRule(header[..n], p);
    } else {
      var occ := Count(Cleaned(header[..n]), name);
      if p < |cols| {
        DerivedByRule(header[..n], p);
        NamedInFront(cols, Derived(header)[|cols|], p);
      } else {
        NewIsNamedByRule(cols, header[n], occ);
      }
    }
  }

  lemma CountOne(x: string, y: string)
    ensures Count([x], y) == if x == y then 1 else 0
  {
  }

  lemma CountTwo(x: string, y: string)
    ensures Count([x, x], y) == if x == y then 2 else 0
  {
  }

  /** Deriving alone does not keep names apart: a header may spell out the name that a repeated one is given. */
  lemma DerivedAloneCollides(x: string)
    requires x != "" && Clean(x) == x && Clean(Suffixed(x, 2)) == Suffixed(x, 2)
    ensures var cols := Derived([x, x, Suffixed(x, 2)]);
            |cols| == 3 && cols[1].column == cols[2].column == Suffixed(x, 2)
  {
    var y, header := Suffixed(x, 2), [x, x, Suffixed(x, 2)];
    assert header[..2] == [x, x] && [x, x][..1] == [x] && [x][..0] == [];
    assert Cleaned([x, x]) == [x, x] && Cleaned([x]) == [x];
    assert |y| > |x| && x != y;
    CountOne(x, x);
    CountOne(x, y);
    CountTwo(x, y);
    assert Derived([]) == [];
    assert Derived([x]) == [ColumnMapping(Csv, x, x, TextColumn, false, 0)];
    assert ColumnNames(Derived([x])) == {x} by { assert Derived([x])[0].column in ColumnNames(Derived([x])); }
    FoldSame(y);
    assert FirstFree(Same(), x, 2, {x}) == 2;
  }

  ghost predicate NamesDistinct(cols: seq<ColumnMapping>) {
    forall i, j :: 0 <= i < j < |cols| ==> cols[i].column != cols[j].column
  }

  // A field that is the first of its name behind these finds the name not given to a repeated one of them.
  ghost predicate FirstIsFree(before: seq<string>, raw: string) {
    Clean(raw) != "" && Count(Cleaned(before), Clean(raw)) == 0 ==> Clean(raw) !in ColumnNames(Derived(before))
  }

  // So does every field of the header, behind those on its left.
  ghost predicate FirstsAreFree(header: seq<string>) {
    header == [] || (FirstsAreFree(header[..|header| - 1]) && FirstIsFree(header[..|header| - 1], header[|header| - 1]))
  }

  lemma NamesDistinctSnoc(cols: seq<ColumnMapping>, c: ColumnMapping)
    ensures NamesDistinct(cols + [c]) <==> NamesDistinct(cols) && c.column !in ColumnNames(cols)
  {
    var cs := cols + [c];
    assert forall i :: 0 <= i < |cols| ==> cs[i] == cols[i];
    forall i | 0 <= i < |cols| ensures NamesDistinct(cs) ==> cols[i].column != c.column {
      assert cs[i].column == cols[i].column && cs[|cols|] == c;
    }
    if NamesDistinct(cs) {
      forall i, j | 0 <= i < j < |cols| ensures cols[i].column != cols[j].column { assert cs[i].column != cs[j].column; }
    }
    assert forall i :: 0 <= i < |cols| ==> cols[i].column in ColumnNames(cols);
  }

  // A field that repeats a name is given a free one; the first of a name is given that name, free or not.
  lemma LastIsFree(header: seq<string>, n: nat)
    requires |header| == n + 1
    ensures NamesDistinct(Derived(header)) <==> NamesDistinct(Derived(header[..n])) && FirstIsFree(header[..n], header[n])
  {
    var cols, name, occ := Derived(header[..n]), Clean(header[n]), Count(Cleaned(header[..n]), Clean(header[n]));
    if name != "" {
      var c := ColumnMapping(Csv, header[n], DerivedName(name, occ, ColumnNames(cols)), TextColumn, false, occ);
      NamesDistinctSnoc(cols, c);
      FoldSame(c.column);
    }
  }

  /**
   Exactly when: the derived columns have names of their own if and only if no field that is the first of its name finds that name
   already given, which the scan checks for repeated fields only.
   */
  lemma {:induction false} DerivedDistinctIff(header: seq<string>)
    ensures NamesDistinct(Derived(header)) <==> FirstsAreFree(header)
    decreases |header|
  {
    if header != [] {
      var n := |header| - 1;
      DerivedDistinctIff(header[..n]);
      LastIsFree(header, n);
    }
  }

  // The search both naming loops make: try suffixes upwards until one is free.
  method FreeSuffix(lower: char -> char, base: string, n: nat, taken: set<string>) returns (k: nat)
    requires KeepsDigits(lower)
    ensures k == FirstFree(lower, base, n, taken)
  {
    k := n;
    while Fold(lower, Suffixed(base, k)) in taken
      invariant k >= n && FirstFree(lower, base, n, taken) == FirstFree(lower, base, k, taken)
      decreases Blocked(lower, base, k, taken)
    {
      BlockedShrinks(lower, base, k, taken);
      k := k + 1;
    }
  }

  ghost predicate Counted(header: seq<string>, count: map<string, nat>) {
    forall x :: x != "" ==> Count(Cleaned(header), x) == if x in count then count[x] else 0
  }

  lemma CountedSnoc(header: seq<string>, i: nat, count: map<string, nat>)
    requires i < |header| && Counted(header[..i], count)
    ensures var name := Clean(header[i]);
      var occ := if name in count then count[name] else 0;
      if name == "" then Counted(header[..i + 1], count)
      else occ == Count(Cleaned(header[..i]), name) && Counted(header[..i + 1], count[name := occ + 1])
  {
    assert header[..i + 1][..i] == header[..i];
    assert Cleaned(header[..i + 1])[..i] == Cleaned(header[..i]);
  }

  // The scan has produced the columns of the first `i` fields, with its used names and its counts.
  ghost predicate DerivedSoFar(header: seq<string>, i: nat, cols: seq<ColumnMapping>, used: set<string>, count: map<string, nat>)
    requires i <= |header|
  {
    cols == Derived(header[..i]) && used == ColumnNames(cols) && Counted(header[..i], count)
  }

  lemma DeriveStep(header: seq<string>, i: nat, cols: seq<ColumnMapping>, used: set<string>, count: map<string, nat>)
    requires i < |header| && DerivedSoFar(header, i, cols, used, count)
    ensures var name := Clean(header[i]);
      var occ := if name in count then count[name] else 0;
      var c := ColumnMapping(Csv, header[i], DerivedName(name, occ, used), TextColumn, false, occ);
      if name == "" then DerivedSoFar(header, i + 1, cols, used, count)
      else DerivedSoFar(header, i + 1, cols + [c], used + {c.column}, count[name := occ + 1])
  {
    CountedSnoc(header, i, count);
    assert header[..i + 1][..i] == header[..i];
    var name := Clean(header[i]);
    var occ := if name in count then count[name] else 0;
    NamesSnoc(cols, ColumnMapping(Csv, header[i], DerivedName(name, occ, used), TextColumn, false, occ));
  }

  /** Walks the header once, counting names and trying suffixes, and yields exactly `Derived(header)`. */
  method DeriveColumns(header: seq<string>) returns (cols: seq<ColumnMapping>)
    ensures cols == Derived(header)
  {
    cols := [];
    var used: set<string>, count: map<string, nat> := {}, map[];
    for i := 0 to |header|
      invariant DerivedSoFar(header, i, cols, used, count)
    {
      var raw := header[i];
      var name := Clean(raw);
      DeriveStep(header, i, cols, used, count);
      if name != "" {
        var occ := if name in count then count[name] else 0;
        count := count[name := occ + 1];
        var colName := name;
        if occ > 0 {
          var n := FreeSuffix(Same(), name, occ + 1, used);
          colName := Suffixed(name, n);
        }
        cols := cols + [ColumnMapping(Csv, raw, colName, TextColumn, false, occ)];
        used := used + {colName};
      }
    }
    assert header[..|header|] == header;
  }

  lemma NamesSnoc(cols: seq<ColumnMapping>, c: ColumnMapping)
    ensures ColumnNames(cols + [c]) == ColumnNames(cols) + {c.column}
  {
    var cs := cols + [c];
    assert cs[|cols|] == c && forall i :: 0 <= i < |cols| ==> cs[i] == cols[i];
    forall x | x in ColumnNames(cols) ensures x in ColumnNames(cs) {
      var i :| 0 <= i < |cols| && cols[i].column == x;
      assert cs[i].column == x;
    }
  }
}
