/**
 Automatic columns across a restart: a new process grows its list from nothing, out of the headers it happens to read, while the
 table keeps the columns it has, told apart by their folded names.
 */
module RestartColumns {
  import opened HeaderNames
  import opened MergedColumns
  import opened AutoColumns

  // The columns a process has after reading one header alone.
  ghost function Alone(lower: char -> char, header: seq<string>): seq<ColumnMapping>
    requires KeepsDigits(lower)
  {
    Merged(lower, [], Derived(header))
  }

  // One field has one column of the table in both lists, and two fields have two.
  ghost predicate Agree(lower: char -> char, a: seq<ColumnMapping>, b: seq<ColumnMapping>) {
    forall c, d :: c in a && d in b ==> (SameKey(c, d) <==> Fold(lower, c.column) == Fold(lower, d.column))
  }

  ghost predicate From(headers: seq<seq<string>>, all: set<seq<string>>) {
    forall h :: h in headers ==> h in all
  }

  // Whatever processes read of these headers, and in whatever order, their columns agree.
  ghost predicate StableAcrossRestarts(lower: char -> char, all: set<seq<string>>)
    requires KeepsDigits(lower)
  {
    forall a, b :: From(a, all) && From(b, all) ==> Agree(lower, Evolved(lower, a), Evolved(lower, b))
  }

  // Two headers read alone agree.
  ghost predicate PairwiseStable(lower: char -> char, all: set<seq<string>>)
    requires KeepsDigits(lower)
  {
    forall h, g :: h in all && g in all ==> Agree(lower, Alone(lower, h), Alone(lower, g))
  }

  // The column is the one its field has where some header is read alone.
  ghost predicate IsFromOne(lower: char -> char, all: set<seq<string>>, c: ColumnMapping)
    requires KeepsDigits(lower)
  {
    exists h, d :: h in all && d in Alone(lower, h) && SameKey(c, d) && c.column == d.column
  }

  ghost predicate AllFromOne(lower: char -> char, all: set<seq<string>>, cols: seq<ColumnMapping>)
    requires KeepsDigits(lower)
  {
    forall c :: c in cols ==> IsFromOne(lower, all, c)
  }

  lemma FirstFreeIs(lower: char -> char, base: string, n: nat, taken: set<string>, k: nat)
    requires KeepsDigits(lower) && k >= n && Fold(lower, Suffixed(base, k)) !in taken
    requires forall m: nat :: n <= m < k ==> Fold(lower, Suffixed(base, m)) in taken
    ensures FirstFree(lower, base, n, taken) == k
  {
  }

  // More taken names change nothing as long as the name itself stays free.
  lemma SameMergedName(lower: char -> char, d: ColumnMapping, few: set<string>, many: set<string>)
    requires KeepsDigits(lower) && few <= many && Fold(lower, MergedName(lower, d, few)) !in many
    ensures MergedName(lower, d, many) == MergedName(lower, d, few)
  {
    if Fold(lower, d.column) in few {
      FirstFreeIs(lower, d.name, d.occurrence + 2, many, FirstFree(lower, d.name, d.occurrence + 2, few));
    }
  }

  lemma AgreeFor(lower: char -> char, a: seq<ColumnMapping>, b: seq<ColumnMapping>, c: ColumnMapping, d: ColumnMapping,
                 c': ColumnMapping, d': ColumnMapping)
    requires Agree(lower, a, b) && c' in a && d' in b
    requires SameKey(c, c') && c.column == c'.column && SameKey(d, d') && d.column == d'.column
    ensures SameKey(c, d) <==> Fold(lower, c.column) == Fold(lower, d.column)
  {
  }

  // Columns agree with each other as what they are from does.
  lemma OnesAgree(lower: char -> char, all: set<seq<string>>, c: ColumnMapping, d: ColumnMapping)
    requires KeepsDigits(lower) && PairwiseStable(lower, all) && IsFromOne(lower, all, c) && IsFromOne(lower, all, d)
    ensures SameKey(c, d) <==> Fold(lower, c.column) == Fold(lower, d.column)
  {
    var h, c' :| h in all && c' in Alone(lower, h) && SameKey(c, c') && c.column == c'.column;
    var g, d' :| g in all && d' in Alone(lower, g) && SameKey(d, d') && d.column == d'.column;
    AgreeFor(lower, Alone(lower, h), Alone(lower, g), c, d, c', d');
  }

  lemma ExtendsIn(a: seq<ColumnMapping>, b: seq<ColumnMapping>, c: ColumnMapping)
    requires Extends(a, b) && c in a
    ensures c in b
  {
    var i :| 0 <= i < |a| && a[i] == c;
    assert b[i] == c;
  }

  // Reading on keeps the columns there are.
  lemma {:induction false} PrefixExtends(lower: char -> char, cols: seq<ColumnMapping>, d: seq<ColumnMapping>, n: nat, c: ColumnMapping)
    requires KeepsDigits(lower) && n <= |d| && c in Merged(lower, cols, d[..n])
    ensures c in Merged(lower, cols, d)
    decreases |d| - n
  {
    if n == |d| {
      assert d[..n] == d;
    } else {
      assert d[..n + 1][..n] == d[..n];
      MergeOneKeeps(lower, Merged(lower, cols, d[..n]), d[n]);
      ExtendsIn(Merged(lower, cols, d[..n]), Merged(lower, cols, d[..n + 1]), c);
      PrefixExtends(lower, cols, d, n + 1, c);
    }
  }

  // What has a key of the list's has the key of one of the list.
  lemma KeyedBy(cols: seq<ColumnMapping>, d: ColumnMapping) returns (c: ColumnMapping)
    requires HasKey(cols, d)
    ensures c in cols && SameKey(c, d)
  {
    var i :| 0 <= i < |cols| && SameKey(cols[i], d);
    c := cols[i];
  }

  lemma FoldedIs(lower: char -> char, cols: seq<ColumnMapping>, x: string) returns (c: ColumnMapping)
    requires x in FoldedNames(lower, cols)
    ensures c in cols && Fold(lower, c.column) == x
  {
    var i :| 0 <= i < |cols| && Fold(lower, cols[i].column) == x;
    c := cols[i];
  }

  lemma FoldedHas(lower: char -> char, cols: seq<ColumnMapping>, c: ColumnMapping)
    requires c in cols
    ensures Fold(lower, c.column) in FoldedNames(lower, cols)
  {
    var i :| 0 <= i < |cols| && cols[i] == c;
  }

  // Every column of a merge into nothing has the key of a derived column.
  lemma {:induction false} KeysAreDerived(lower: char -> char, d: seq<ColumnMapping>, c: ColumnMapping)
    requires KeepsDigits(lower) && c in Merged(lower, [], d)
    ensures exists e :: e in d && SameKey(c, e)
    decreases |d|
  {
    var n := |d| - 1;
    var cols := Merged(lower, [], d[..n]);
    if c in cols {
      KeysAreDerived(lower, d[..n], c);
      var e :| e in d[..n] && SameKey(c, e);
      assert e in d;
    } else {
      assert c == d[n].(column := MergedName(lower, d[n], FoldedNames(lower, cols)));
      assert d[n] in d && SameKey(c, d[n]);
    }
  }

  lemma NoneHasKey(cols: seq<ColumnMapping>, d: ColumnMapping, c: ColumnMapping)
    requires !HasKey(cols, d) && c in cols
    ensures !SameKey(c, d)
  {
    var i :| 0 <= i < |cols| && cols[i] == c;
  }

  // ---------------------------------------------------------------- every column is where one header alone puts it

  lemma AloneIsFromOne(lower: char -> char, all: set<seq<string>>, h: seq<string>, n: nat, c: ColumnMapping)
    requires KeepsDigits(lower) && h in all && n <= |Derived(h)| && c in Merged(lower, [], Derived(h)[..n])
    ensures IsFromOne(lower, all, c)
  {
    PrefixExtends(lower, [], Derived(h), n, c);
    assert c in Alone(lower, h) && SameKey(c, c);
  }

  // A derived key that the merge into nothing has the other merge has as well.
  lemma KeyIsThere(lower: char -> char, cols: seq<ColumnMapping>, d: seq<ColumnMapping>, c: ColumnMapping) returns (c': ColumnMapping)
    requires KeepsDigits(lower) && c in Merged(lower, [], d)
    ensures c' in Merged(lower, cols, d) && SameKey(c', c)
  {
    KeysAreDerived(lower, d, c);
    var e :| e in d && SameKey(c, e);
    MergeKeeps(lower, cols, d);
    var i :| 0 <= i < |d| && d[i] == e;
    c' := KeyedBy(Merged(lower, cols, d), e);
  }

  lemma NamesAreTaken(lower: char -> char, all: set<seq<string>>, h: seq<string>, cols: seq<ColumnMapping>, n: nat)
    requires KeepsDigits(lower) && PairwiseStable(lower, all) && h in all && n <= |Derived(h)|
    requires AllFromOne(lower, all, Merged(lower, cols, Derived(h)[..n]))
    ensures FoldedNames(lower, Merged(lower, [], Derived(h)[..n])) <= FoldedNames(lower, Merged(lower, cols, Derived(h)[..n]))
  {
    var d := Derived(h)[..n];
    forall x | x in FoldedNames(lower, Merged(lower, [], d)) ensures x in FoldedNames(lower, Merged(lower, cols, d)) {
      var c := FoldedIs(lower, Merged(lower, [], d), x);
      var c' := KeyIsThere(lower, cols, d, c);
      AloneIsFromOne(lower, all, h, n, c);
      OnesAgree(lower, all, c', c);
      FoldedHas(lower, Merged(lower, cols, d), c');
    }
  }

  // The column a header alone adds for its n-th derived one.
  lemma AddedAlone(lower: char -> char, all: set<seq<string>>, h: seq<string>, cols: seq<ColumnMapping>, n: nat) returns (y: ColumnMapping)
    requires KeepsDigits(lower) && h in all && n < |Derived(h)| && !HasKey(Merged(lower, cols, Derived(h)[..n]), Derived(h)[n])
    ensures y == Derived(h)[n].(column := MergedName(lower, Derived(h)[n], FoldedNames(lower, Merged(lower, [], Derived(h)[..n]))))
    ensures IsFromOne(lower, all, y)
  {
    var d, e := Derived(h), Derived(h)[n];
    var few := Merged(lower, [], d[..n]);
    y := e.(column := MergedName(lower, e, FoldedNames(lower, few)));
    if HasKey(few, e) {
      var c := KeyedBy(few, e);
      var c' := KeyIsThere(lower, cols, d[..n], c);
      NoneHasKey(Merged(lower, cols, d[..n]), e, c');
      assert false;
    }
    assert d[..n + 1][..n] == d[..n];
    assert Merged(lower, [], d[..n + 1]) == few + [y];
    AloneIsFromOne(lower, all, h, n + 1, y);
  }

  lemma AddedIsFromOne(lower: char -> char, all: set<seq<string>>, h: seq<string>, cols: seq<ColumnMapping>, n: nat)
    requires KeepsDigits(lower) && PairwiseStable(lower, all) && h in all && n < |Derived(h)|
    requires AllFromOne(lower, all, Merged(lower, cols, Derived(h)[..n])) && !HasKey(Merged(lower, cols, Derived(h)[..n]), Derived(h)[n])
    ensures var e := Derived(h)[n];
      IsFromOne(lower, all, e.(column := MergedName(lower, e, FoldedNames(lower, Merged(lower, cols, Derived(h)[..n])))))
  {
    var e, many := Derived(h)[n], Merged(lower, cols, Derived(h)[..n]);
    var y := AddedAlone(lower, all, h, cols, n);
    if Fold(lower, y.column) in FoldedNames(lower, many) {
      var c := FoldedIs(lower, many, Fold(lower, y.column));
      OnesAgree(lower, all, c, y);
      NoneHasKey(many, e, c);
      assert false;
    }
    NamesAreTaken(lower, all, h, cols, n);
    SameMergedName(lower, e, FoldedNames(lower, Merged(lower, [], Derived(h)[..n])), FoldedNames(lower, many));
  }

  lemma {:induction false} MergeIsFromOne(lower: char -> char, all: set<seq<string>>, h: seq<string>, cols: seq<ColumnMapping>, n: nat)
    requires KeepsDigits(lower) && PairwiseStable(lower, all) && h in all && n <= |Derived(h)| && AllFromOne(lower, all, cols)
    ensures AllFromOne(lower, all, Merged(lower, cols, Derived(h)[..n]))
    decreases n
  {
    var d := Derived(h);
    if n > 0 {
      MergeIsFromOne(lower, all, h, cols, n - 1);
      assert d[..n][..n - 1] == d[..n - 1];
      if !HasKey(Merged(lower, cols, d[..n - 1]), d[n - 1]) { AddedIsFromOne(lower, all, h, cols, n - 1); }
    }
  }

  lemma {:induction false} EvolvedIsFromOne(lower: char -> char, all: set<seq<string>>, headers: seq<seq<string>>)
    requires KeepsDigits(lower) && PairwiseStable(lower, all) && From(headers, all)
    ensures AllFromOne(lower, all, Evolved(lower, headers))
    decreases |headers|
  {
    if headers != [] {
      var n := |headers| - 1;
      EvolvedIsFromOne(lower, all, headers[..n]);
      var d := Derived(headers[n]);
      assert d[..|d|] == d;
      MergeIsFromOne(lower, all, headers[n], Evolved(lower, headers[..n]), |d|);
    }
  }

  // ---------------------------------------------------------------- exactly when

  lemma OneHeader(lower: char -> char, h: seq<string>)
    requires KeepsDigits(lower)
    ensures Evolved(lower, [h]) == Alone(lower, h)
  {
    assert [h][..0] == [];
  }

  /**
   Exactly when: over any restarts and in any order of these headers a field keeps its column of the table, and shares it with no
   other, if and only if that is so of any two of the headers, each read alone by a new process.
   */
  lemma StableIff(lower: char -> char, all: set<seq<string>>)
    requires KeepsDigits(lower)
    ensures StableAcrossRestarts(lower, all) <==> PairwiseStable(lower, all)
  {
    if PairwiseStable(lower, all) {
      forall a, b | From(a, all) && From(b, all) ensures Agree(lower, Evolved(lower, a), Evolved(lower, b)) {
        EvolvedIsFromOne(lower, all, a);
        EvolvedIsFromOne(lower, all, b);
        forall c, d | c in Evolved(lower, a) && d in Evolved(lower, b) ensures SameKey(c, d) <==> Fold(lower, c.column) == Fold(lower, d.column) {
          OnesAgree(lower, all, c, d);
        }
      }
    }
    if StableAcrossRestarts(lower, all) {
      forall h, g | h in all && g in all ensures Agree(lower, Alone(lower, h), Alone(lower, g)) {
        OneHeader(lower, h);
        OneHeader(lower, g);
        assert From([h], all) && From([g], all);
      }
    }
  }

  /** Two spellings of a name, read by two processes: two fields share one column of the table. */
  lemma RestartMixesColumns(lower: char -> char)
    requires KeepsDigits(lower) && lower('A') == lower('a')
    ensures !StableAcrossRestarts(lower, {["A"], ["a"]})
  {
    assert TrimSpace("A") == "A" && DropControl("A") == "A";
    assert TrimSpace("a") == "a" && DropControl("a") == "a";
    assert ["A"] != ["a"] by { assert ["A"][0][0] != ["a"][0][0]; }
    SpellingsClash(lower, "A", "a");
    StableIff(lower, {["A"], ["a"]});
  }

  lemma SpellingsClash(lower: char -> char, x: string, y: string)
    requires KeepsDigits(lower) && x != "" && Clean(x) == x && y != "" && Clean(y) == y
    requires x != y && Fold(lower, x) == Fold(lower, y)
    ensures !PairwiseStable(lower, {[x], [y]})
  {
    AloneOne(lower, x);
    AloneOne(lower, y);
    var c, d := ColumnMapping(Csv, x, x, TextColumn, false, 0), ColumnMapping(Csv, y, y, TextColumn, false, 0);
    assert c in Alone(lower, [x]) && d in Alone(lower, [y]) && !SameKey(c, d);
    assert !Agree(lower, Alone(lower, [x]), Alone(lower, [y]));
    assert [x] in {[x], [y]} && [y] in {[x], [y]};
  }

  lemma AloneOne(lower: char -> char, x: string)
    requires KeepsDigits(lower) && x != "" && Clean(x) == x
    ensures Alone(lower, [x]) == [ColumnMapping(Csv, x, x, TextColumn, false, 0)]
  {
    assert [x][..0] == [] && Cleaned([]) == [] && Derived([]) == [];
    var c := ColumnMapping(Csv, x, x, TextColumn, false, 0);
    assert Derived([x]) == [c];
    assert [c][..0] == [] && FoldedNames(lower, []) == {};
    assert Merged(lower, [], [c]) == MergeOne(lower, [], c);
  }

  // ---------------------------------------------------------------- key columns

  // The names of an insert: the sink's own columns, then those of the list.
  function InsertNames(keys: seq<string>, cols: seq<ColumnMapping>): seq<string> {
    keys + seq(|cols|, i requires 0 <= i < |cols| => cols[i].column)
  }

  ghost predicate FoldDistinct(lower: char -> char, names: seq<string>) {
    forall i, j :: 0 <= i < j < |names| ==> Fold(lower, names[i]) != Fold(lower, names[j])
  }

  /**
   Exactly when: an insert names each column once if and only if no automatic column is named like one of the sink's own, which
   nothing checks.
   */
  lemma InsertNamesDistinctIff(lower: char -> char, keys: seq<string>, headers: seq<seq<string>>)
    requires KeepsDigits(lower) && FoldDistinct(lower, keys)
    ensures FoldDistinct(lower, InsertNames(keys, Evolved(lower, headers)))
            <==> KeysApart(lower, keys, Evolved(lower, headers))
  {
    EvolvedAuto(lower, headers);
    NamesDistinctIff(lower, keys, Evolved(lower, headers));
  }

  ghost predicate KeysApart(lower: char -> char, keys: seq<string>, cols: seq<ColumnMapping>) {
    forall k, c :: k in keys && c in cols ==> Fold(lower, k) != Fold(lower, c.column)
  }

  lemma NamesDistinctIff(lower: char -> char, keys: seq<string>, cols: seq<ColumnMapping>)
    requires FoldDistinct(lower, keys) && WellNamed(lower, cols)
    ensures FoldDistinct(lower, InsertNames(keys, cols)) <==> KeysApart(lower, keys, cols)
  {
    var names, n := InsertNames(keys, cols), |keys|;
    if FoldDistinct(lower, names) {
      forall k, c | k in keys && c in cols ensures Fold(lower, k) != Fold(lower, c.column) {
        var i :| 0 <= i < n && keys[i] == k;
        var j :| 0 <= j < |cols| && cols[j] == c;
        assert names[i] == k && names[n + j] == c.column;
      }
    }
    if KeysApart(lower, keys, cols) {
      forall i, j | 0 <= i < j < |names| ensures Fold(lower, names[i]) != Fold(lower, names[j]) {
        if j < n {
          assert names[i] == keys[i] && names[j] == keys[j];
        } else {
          assert names[j] == cols[j - n].column && cols[j - n] in cols;
          if i < n { assert names[i] == keys[i] && keys[i] in keys; } else { assert names[i] == cols[i - n].column; }
        }
      }
    }
  }

  /** A header field named like a key column collides with it. */
  lemma KeyNameCollides(lower: char -> char, keys: seq<string>, x: string)
    requires KeepsDigits(lower) && x in keys && x != "" && Clean(x) == x
    ensures !FoldDistinct(lower, InsertNames(keys, Evolved(lower, [[x]])))
  {
    OneHeader(lower, [x]);
    AloneOne(lower, x);
    var i :| 0 <= i < |keys| && keys[i] == x;
    var names := InsertNames(keys, Evolved(lower, [[x]]));
    assert names[i] == x && names[|keys|] == x;
  }
}
