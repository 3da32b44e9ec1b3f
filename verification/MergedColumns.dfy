/**
 Merging derived columns into the ones a table already has. Column names are compared through `lower`, the
 catalogue's case folding, about which only that it keeps decimal digits apart is used.
 */
module MergedColumns {
  import opened Wrappers
  import opened Text
  import opened HeaderNames

  // ---------------------------------------------------------------- merging

  predicate SameKey(a: ColumnMapping, b: ColumnMapping) {
    a.name == b.name && a.occurrence == b.occurrence
  }

  predicate HasKey(cols: seq<ColumnMapping>, c: ColumnMapping) {
    exists i :: 0 <= i < |cols| && SameKey(cols[i], c)
  }

  // The map key the sink files a column under.
  function KeyText(c: ColumnMapping): string {
    c.name + "\0" + Itoa(c.occurrence)
  }

  lemma KeyTextInjective(a: ColumnMapping, b: ColumnMapping)
    requires KeyText(a) == KeyText(b)
    ensures SameKey(a, b)
  {
    var s, m, n := KeyText(a), |a.name|, |b.name|;
    assert s[m] == '\0' && s[n] == '\0';
    assert forall i :: m < i < |s| ==> s[i] == Itoa(a.occurrence)[i - m - 1];
    assert forall i :: n < i < |s| ==> s[i] == Itoa(b.occurrence)[i - n - 1];
    assert !IsDigit('\0');
    assert m == n;
    assert a.name == s[..m] == b.name;
    assert s[m + 1..] == Itoa(a.occurrence) == Itoa(b.occurrence);
    ItoaInjective(a.occurrence, b.occurrence);
  }

  function FoldedNames(lower: char -> char, cols: seq<ColumnMapping>): set<string> {
    set i | 0 <= i < |cols| :: Fold(lower, cols[i].column)
  }

  // The name a new column gets: the derived one if it is free, else the first free suffix of its header name.
  ghost function MergedName(lower: char -> char, d: ColumnMapping, taken: set<string>): (name: string)
    requires KeepsDigits(lower)
    ensures Fold(lower, name) !in taken
    ensures Fold(lower, d.column) !in taken ==> name == d.column
  {
    if Fold(lower, d.column) !in taken then d.column
    else Suffixed(d.name, FirstFree(lower, d.name, d.occurrence + 2, taken))
  }

  ghost function MergeOne(lower: char -> char, cols: seq<ColumnMapping>, d: ColumnMapping): seq<ColumnMapping>
    requires KeepsDigits(lower)
  {
    if HasKey(cols, d) then cols else cols + [d.(column := MergedName(lower, d, FoldedNames(lower, cols)))]
  }

  ghost function Merged(lower: char -> char, existing: seq<ColumnMapping>, derived: seq<ColumnMapping>): seq<ColumnMapping>
    requires KeepsDigits(lower)
  {
    if derived == [] then existing else
      var n := |derived| - 1;
      MergeOne(lower, Merged(lower, existing, derived[..n]), derived[n])
  }

  // Names pairwise distinct under folding, and each (name, occurrence) held once.
  ghost predicate WellNamed(lower: char -> char, cols: seq<ColumnMapping>) {
    && (forall i, j :: 0 <= i < j < |cols| ==> Fold(lower, cols[i].column) != Fold(lower, cols[j].column))
    && (forall i, j :: 0 <= i < j < |cols| ==> !SameKey(cols[i], cols[j]))
  }

  ghost predicate Extends(old_: seq<ColumnMapping>, new_: seq<ColumnMapping>) {
    |old_| <= |new_| && forall i :: 0 <= i < |old_| ==> new_[i] == old_[i]
  }

  ghost predicate Covers(cols: seq<ColumnMapping>, derived: seq<ColumnMapping>) {
    forall i :: 0 <= i < |derived| ==> HasKey(cols, derived[i])
  }

  lemma FoldedSnoc(lower: char -> char, cols: seq<ColumnMapping>, c: ColumnMapping)
    ensures FoldedNames(lower, cols + [c]) == FoldedNames(lower, cols) + {Fold(lower, c.column)}
  {
    var cs := cols + [c];
    assert cs[|cols|] == c && forall i :: 0 <= i < |cols| ==> cs[i] == cols[i];
    forall x | x in FoldedNames(lower, cols) ensures x in FoldedNames(lower, cs) {
      var i :| 0 <= i < |cols| && Fold(lower, cols[i].column) == x;
      assert cs[i] == cols[i];
    }
  }

  lemma HasKeyExtends(cols: seq<ColumnMapping>, more: seq<ColumnMapping>, c: ColumnMapping)
    requires Extends(cols, more) && HasKey(cols, c)
    ensures HasKey(more, c)
  {
    var i :| 0 <= i < |cols| && SameKey(cols[i], c);
    assert SameKey(more[i], c);
  }

  lemma CoversExtends(cols: seq<ColumnMapping>, more: seq<ColumnMapping>, derived: seq<ColumnMapping>)
    requires Extends(cols, more) && Covers(cols, derived)
    ensures Covers(more, derived)
  {
    forall i | 0 <= i < |derived| ensures HasKey(more, derived[i]) { HasKeyExtends(cols, more, derived[i]); }
  }

  lemma MergeOneKeeps(lower: char -> char, cols: seq<ColumnMapping>, d: ColumnMapping)
    requires KeepsDigits(lower)
    ensures Extends(cols, MergeOne(lower, cols, d)) && HasKey(MergeOne(lower, cols, d), d)
    ensures WellNamed(lower, cols) ==> WellNamed(lower, MergeOne(lower, cols, d))
  {
    if !HasKey(cols, d) {
      var out := MergeOne(lower, cols, d);
      assert SameKey(out[|cols|], d);
      forall i | 0 <= i < |cols| ensures Fold(lower, cols[i].column) != Fold(lower, out[|cols|].column) {
        assert Fold(lower, cols[i].column) in FoldedNames(lower, cols);
      }
    }
  }

  /** Merging keeps the old columns as a prefix, keeps names and keys distinct, and covers the derived columns. */
  lemma {:induction false} MergeKeeps(lower: char -> char, existing: seq<ColumnMapping>, derived: seq<ColumnMapping>)
    requires KeepsDigits(lower)
    ensures var out := Merged(lower, existing, derived);
      Extends(existing, out) && Covers(out, derived) && (WellNamed(lower, existing) ==> WellNamed(lower, out))
    decreases |derived|
  {
    if derived != [] {
      var n := |derived| - 1;
      var mid, out := Merged(lower, existing, derived[..n]), Merged(lower, existing, derived);
      MergeKeeps(lower, existing, derived[..n]);
      MergeOneKeeps(lower, mid, derived[n]);
      CoversExtends(mid, out, derived[..n]);
      assert forall i :: 0 <= i < n ==> derived[i] == derived[..n][i];
    }
  }

  // A column added for `d` behind `before`: it keeps the derived name where that is free, and otherwise bears the header name with
  // the first free suffix from two beyond its count of occurrences.
  ghost predicate AddedFor(lower: char -> char, before: seq<ColumnMapping>, d: ColumnMapping, c: ColumnMapping) {
    && c == d.(column := c.column)
    && if Fold(lower, d.column) !in FoldedNames(lower, before) then c.column == d.column
       else exists k: nat :: FirstFreeFrom(lower, FoldedNames(lower, before), d, k) && IsNumbered(c.column, d.name, k)
  }

  ghost predicate FirstFreeFrom(lower: char -> char, taken: set<string>, d: ColumnMapping, k: nat) {
    && k >= d.occurrence + 2 && Fold(lower, d.name + "__" + Itoa(k)) !in taken
    && forall m: nat :: d.occurrence + 2 <= m < k ==> Fold(lower, d.name + "__" + Itoa(m)) in taken
  }

  lemma MergeOneAdds(lower: char -> char, cols: seq<ColumnMapping>, d: ColumnMapping)
    requires KeepsDigits(lower) && !HasKey(cols, d)
    ensures var out := MergeOne(lower, cols, d);
      |out| == |cols| + 1 && out[..|cols|] == cols && AddedFor(lower, cols, d, out[|cols|])
  {
    var taken := FoldedNames(lower, cols);
    if Fold(lower, d.column) in taken {
      var k := FirstFree(lower, d.name, d.occurrence + 2, taken);
      assert forall m: nat :: Fold(lower, d.name + "__" + Itoa(m)) == Fold(lower, Suffixed(d.name, m));
      assert FirstFreeFrom(lower, taken, d, k) && IsNumbered(MergedName(lower, d, taken), d.name, k);
    }
  }

  /** Every column beyond the existing ones was added for a derived one, under the name that the columns on its left leave it. */
  lemma {:induction false} AddedByRule(lower: char -> char, existing: seq<ColumnMapping>, derived: seq<ColumnMapping>, p: nat) returns (j: nat)
    requires KeepsDigits(lower) && |existing| <= p < |Merged(lower, existing, derived)|
    ensures j < |derived| && var out := Merged(lower, existing, derived); AddedFor(lower, out[..p], derived[j], out[p])
    decreases |derived|
  {
    var n := |derived| - 1;
    var mid, out := Merged(lower, existing, derived[..n]), Merged(lower, existing, derived);
    MergeOneKeeps(lower, mid, derived[n]);
    if p < |mid| {
      j := AddedByRule(lower, existing, derived[..n], p);
      assert out[..p] == mid[..p];
    } else {
      MergeOneAdds(lower, mid, derived[n]);
      j := n;
    }
  }

  /** Columns that are all there already are not added again. */
  lemma {:induction false} MergeCovered(lower: char -> char, cols: seq<ColumnMapping>, derived: seq<ColumnMapping>)
    requires KeepsDigits(lower) && Covers(cols, derived)
    ensures Merged(lower, cols, derived) == cols
    decreases |derived|
  {
    if derived != [] {
      MergeCovered(lower, cols, derived[..|derived| - 1]);
    }
  }

  /** Merging the same header a second time changes nothing. */
  lemma MergeIdempotent(lower: char -> char, existing: seq<ColumnMapping>, derived: seq<ColumnMapping>)
    requires KeepsDigits(lower)
    ensures Merged(lower, Merged(lower, existing, derived), derived) == Merged(lower, existing, derived)
  {
    MergeKeeps(lower, existing, derived);
    MergeCovered(lower, Merged(lower, existing, derived), derived);
  }

  ghost predicate KeysOf(have: set<string>, cols: seq<ColumnMapping>) {
    forall c :: KeyText(c) in have <==> HasKey(cols, c)
  }

  lemma KeysSnoc(have: set<string>, cols: seq<ColumnMapping>, c: ColumnMapping)
    requires KeysOf(have, cols)
    ensures KeysOf(have + {KeyText(c)}, cols + [c])
  {
    var cs := cols + [c];
    assert cs[|cols|] == c && forall i :: 0 <= i < |cols| ==> cs[i] == cols[i];
    forall d ensures KeyText(d) in have + {KeyText(c)} <==> HasKey(cs, d) {
      if KeyText(d) == KeyText(c) {
        KeyTextInjective(d, c);
        assert SameKey(cs[|cols|], d);
      } else if HasKey(cols, d) {
        HasKeyExtends(cols, cs, d);
      }
    }
  }

  lemma KeyTextOf(c: ColumnMapping, d: ColumnMapping)
    requires SameKey(c, d)
    ensures KeyText(c) == KeyText(d)
  {
  }

  // The lookup sets the sink keeps beside a column list.
  ghost predicate Indexed(lower: char -> char, cols: seq<ColumnMapping>, have: set<string>, used: set<string>) {
    KeysOf(have, cols) && used == FoldedNames(lower, cols)
  }

  lemma IndexedSnoc(lower: char -> char, cols: seq<ColumnMapping>, c: ColumnMapping, have: set<string>, used: set<string>)
    requires Indexed(lower, cols, have, used)
    ensures Indexed(lower, cols + [c], have + {KeyText(c)}, used + {Fold(lower, c.column)})
  {
    KeysSnoc(have, cols, c);
    FoldedSnoc(lower, cols, c);
  }

  method IndexColumns(lower: char -> char, cols: seq<ColumnMapping>) returns (have: set<string>, used: set<string>)
    ensures Indexed(lower, cols, have, used)
  {
    have, used := {}, {};
    for i := 0 to |cols|
      invariant Indexed(lower, cols[..i], have, used)
    {
      assert cols[..i + 1] == cols[..i] + [cols[i]];
      IndexedSnoc(lower, cols[..i], cols[i], have, used);
      have, used := have + {KeyText(cols[i])}, used + {Fold(lower, cols[i].column)};
    }
    assert cols[..|cols|] == cols;
  }

  lemma MergeStep(lower: char -> char, cols: seq<ColumnMapping>, d: ColumnMapping, have: set<string>, used: set<string>)
    requires KeepsDigits(lower) && Indexed(lower, cols, have, used)
    ensures KeyText(d) in have ==> MergeOne(lower, cols, d) == cols
    ensures KeyText(d) !in have ==>
      var nc := d.(column := MergedName(lower, d, used));
      MergeOne(lower, cols, d) == cols + [nc]
      && Indexed(lower, cols + [nc], have + {KeyText(d)}, used + {Fold(lower, nc.column)})
  {
    var nc := d.(column := MergedName(lower, d, used));
    KeyTextOf(nc, d);
    IndexedSnoc(lower, cols, nc, have, used);
  }

  /** Merges derived columns into the existing ones; `grew` says whether anything was added. */
  method MergeDerivedCols(lower: char -> char, existing: Option<seq<ColumnMapping>>, derived: seq<ColumnMapping>)
    returns (out: seq<ColumnMapping>, grew: bool)
    requires KeepsDigits(lower)
    ensures out == Merged(lower, if existing.None? then [] else existing.value, derived)
    ensures grew <==> out != if existing.None? then [] else existing.value
  {
    ghost var base := if existing.None? then [] else existing.value;
    out := if existing.None? then [] else existing.value;
    var have, used := IndexColumns(lower, out);
    grew := false;
    for i := 0 to |derived|
      invariant out == Merged(lower, base, derived[..i])
      invariant Indexed(lower, out, have, used)
      invariant if grew then |out| > |base| else out == base
    {
      var d := derived[i];
      assert derived[..i + 1][..i] == derived[..i];
      MergeStep(lower, out, d, have, used);
      if KeyText(d) !in have {
        var col := d.column;
        if Fold(lower, col) in used {
          var n := FreeSuffix(lower, d.name, d.occurrence + 2, used);
          col := Suffixed(d.name, n);
        }
        var nc := d.(column := col);
        have, used := have + {KeyText(d)}, used + {Fold(lower, col)};
        out, grew := out + [nc], true;
      }
    }
    assert derived[..|derived|] == derived;
  }
}
