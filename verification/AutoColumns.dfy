/** Filling rows through automatic columns, and what becomes of every header position over any sequence of headers. */
module AutoColumns {
  import opened Wrappers
  import opened Text
  import opened HeaderNames
  import opened MergedColumns

  // ---------------------------------------------------------------- filling a row

  datatype Cell = Null | Str(s: string) | Num(n: int)

  datatype RowError = MissingRequired(column: string) | BadValue(column: string, raw: string)

  type Parser = (string, string) -> Option<Cell>

  // A ragged row reads as empty past its end.
  function FieldAt(fields: seq<string>, p: nat): string {
    if p < |fields| then fields[p] else ""
  }

  // The values a row has under one header name, in header order.
  function ValuesUnder(header: seq<string>, fields: seq<string>, name: string): (r: seq<string>)
    ensures |r| == Count(header, name)
  {
    if header == [] then [] else
      var n := |header| - 1;
      ValuesUnder(header[..n], fields, name) + (if header[n] == name then [FieldAt(fields, n)] else [])
  }

  lemma {:induction false} ValueUnderAt(header: seq<string>, fields: seq<string>, p: nat)
    requires p < |header|
    ensures Count(header[..p], header[p]) < Count(header, header[p])
    ensures ValuesUnder(header, fields, header[p])[Count(header[..p], header[p])] == FieldAt(fields, p)
    decreases |header|
  {
    var n := |header| - 1;
    if p < n {
      ValueUnderAt(header[..n], fields, p);
      assert header[..n][..p] == header[..p];
    }
  }

  // What a column reads from one record: nothing, or a text that may be empty.
  function RawOf(c: ColumnMapping, header: seq<string>, fields: seq<string>, md: map<string, string>): Option<string> {
    match c.from
    case Metadata => if c.name in md then Some(md[c.name]) else None
    case Csv =>
      var vals := ValuesUnder(header, fields, c.name);
      if c.occurrence < |vals| then Some(vals[c.occurrence]) else None
  }

  function Convert(parse: Parser, typ: ColumnType, raw: string): Option<Cell> {
    match typ
    case TextColumn => Some(Str(raw))
    case TypedColumn(t) => parse(t, raw)
  }

  function CellOf(parse: Parser, c: ColumnMapping, header: seq<string>, fields: seq<string>, md: map<string, string>): Result<Cell, RowError> {
    var raw := RawOf(c, header, fields, md);
    if raw.None? || raw.value == "" then
      if c.required then Failure(MissingRequired(c.column)) else Success(Null)
    else
      match Convert(parse, c.typ, raw.value)
      case None => Failure(BadValue(c.column, raw.value))
      case Some(v) => Success(v)
  }

  ghost predicate Grouped(byHeader: map<string, seq<string>>, header: seq<string>, fields: seq<string>) {
    forall h :: ValuesUnder(header, fields, h) == if h in byHeader then byHeader[h] else []
  }

  lemma GroupedSnoc(byHeader: map<string, seq<string>>, header: seq<string>, fields: seq<string>, i: nat)
    requires i < |header| && Grouped(byHeader, header[..i], fields)
    ensures var h := header[i];
      var vals := if h in byHeader then byHeader[h] else [];
      Grouped(byHeader[h := vals + [FieldAt(fields, i)]], header[..i + 1], fields)
  {
    assert header[..i + 1][..i] == header[..i];
  }

  // The values of the record, grouped by header name in header order.
  method GroupByHeader(header: seq<string>, fields: seq<string>) returns (byHeader: map<string, seq<string>>)
    ensures Grouped(byHeader, header, fields)
  {
    byHeader := map[];
    for i := 0 to |header|
      invariant Grouped(byHeader, header[..i], fields)
    {
      var h, v := header[i], FieldAt(fields, i);
      GroupedSnoc(byHeader, header, fields, i);
      byHeader := byHeader[h := (if h in byHeader then byHeader[h] else []) + [v]];
    }
    assert header[..|header|] == header;
  }

  // ---------------------------------------------------------------- what a column gets

  // Position `p` has the name for the (k+1)-th time.
  predicate IsNth(header: seq<string>, name: string, k: nat, p: nat) {
    p < |header| && header[p] == name && Count(header[..p], name) == k
  }

  // What the record has for a column: the metadata entry of its name, or the field at the position where its name occurs for the
  // right time, which is empty past the end of a ragged row.
  ghost predicate Supplies(c: ColumnMapping, header: seq<string>, fields: seq<string>, md: map<string, string>, v: Option<string>) {
    match c.from
    case Metadata => v == if c.name in md then Some(md[c.name]) else None
    case Csv =>
      if v.Some? then exists p: nat :: IsNth(header, c.name, c.occurrence, p) && v.value == (if p < |fields| then fields[p] else "")
      else forall p: nat :: !IsNth(header, c.name, c.occurrence, p)
  }

  predicate Absent(v: Option<string>) {
    v.None? || v.value == ""
  }

  // A column is refused if its value is required and absent, or typed and not of the type.
  predicate Refuses(parse: Parser, c: ColumnMapping, v: Option<string>) {
    if Absent(v) then c.required else c.typ.TypedColumn? && parse(c.typ.sqlType, v.value).None?
  }

  function Refusal(c: ColumnMapping, v: Option<string>): RowError {
    if Absent(v) then MissingRequired(c.column) else BadValue(c.column, v.value)
  }

  // An absent value is NULL; another is taken as it is, or as it parses.
  predicate CellIs(parse: Parser, c: ColumnMapping, v: Option<string>, cell: Cell) {
    if Absent(v) then cell == Null
    else if c.typ.TextColumn? then cell == Str(v.value)
    else parse(c.typ.sqlType, v.value) == Some(cell)
  }

  lemma {:induction false} NoNth(header: seq<string>, name: string, k: nat, p: nat)
    requires Count(header, name) <= k
    ensures !IsNth(header, name, k, p)
  {
    if IsNth(header, name, k, p) {
      assert header[..p + 1][..p] == header[..p];
      assert header[..|header|] == header;
      CountMonotone(header, name, p + 1, |header|);
      assert false;
    }
  }

  lemma NthSupplies(c: ColumnMapping, header: seq<string>, fields: seq<string>, md: map<string, string>, p: nat)
    requires c.from == Csv && IsNth(header, c.name, c.occurrence, p)
    ensures RawOf(c, header, fields, md) == Some(if p < |fields| then fields[p] else "")
  {
    ValueUnderAt(header, fields, p);
  }

  lemma RawIsSupplied(c: ColumnMapping, header: seq<string>, fields: seq<string>, md: map<string, string>)
    ensures Supplies(c, header, fields, md, RawOf(c, header, fields, md))
  {
    if c.from == Csv {
      if c.occurrence < Count(header, c.name) {
        var p := NthOccurrence(header, c.name, c.occurrence);
        NthSupplies(c, header, fields, md, p);
        assert IsNth(header, c.name, c.occurrence, p);
      } else {
        forall p: nat ensures !IsNth(header, c.name, c.occurrence, p) { NoNth(header, c.name, c.occurrence, p); }
      }
    }
  }

  lemma SuppliedIsRaw(c: ColumnMapping, header: seq<string>, fields: seq<string>, md: map<string, string>, v: Option<string>)
    requires Supplies(c, header, fields, md, v)
    ensures v == RawOf(c, header, fields, md)
  {
    if c.from == Csv {
      if v.Some? {
        var p: nat :| IsNth(header, c.name, c.occurrence, p) && v.value == (if p < |fields| then fields[p] else "");
        NthSupplies(c, header, fields, md, p);
      } else if c.occurrence < Count(header, c.name) {
        var p := NthOccurrence(header, c.name, c.occurrence);
        assert IsNth(header, c.name, c.occurrence, p);
        assert false;
      }
    }
  }

  // Some column is refused.
  ghost predicate RowRefused(parse: Parser, cols: seq<ColumnMapping>, header: seq<string>, fields: seq<string>, md: map<string, string>) {
    exists j, v :: 0 <= j < |cols| && Supplies(cols[j], header, fields, md, v) && Refuses(parse, cols[j], v)
  }

  // The j-th column is the first that is refused, for this reason.
  ghost predicate FirstRefused(parse: Parser, cols: seq<ColumnMapping>, header: seq<string>, fields: seq<string>, md: map<string, string>,
                               j: nat, error: RowError) {
    && j < |cols| && !RowRefused(parse, cols[..j], header, fields, md)
    && exists v :: Supplies(cols[j], header, fields, md, v) && Refuses(parse, cols[j], v) && error == Refusal(cols[j], v)
  }

  // Every column has got what the record has for it.
  ghost predicate RowGets(parse: Parser, cols: seq<ColumnMapping>, header: seq<string>, fields: seq<string>, md: map<string, string>,
                          row: seq<Cell>) {
    |row| == |cols| && forall j, v :: 0 <= j < |cols| && Supplies(cols[j], header, fields, md, v) ==> CellIs(parse, cols[j], v, row[j])
  }

  /** What the cell of a column is, told by what the record has for it. */
  lemma CellMeans(parse: Parser, c: ColumnMapping, header: seq<string>, fields: seq<string>, md: map<string, string>, v: Option<string>)
    requires Supplies(c, header, fields, md, v)
    ensures var r := CellOf(parse, c, header, fields, md);
      if Refuses(parse, c, v) then r == Failure(Refusal(c, v)) else r.Success? && CellIs(parse, c, v, r.value)
  {
    SuppliedIsRaw(c, header, fields, md, v);
  }

  lemma FilledRow(parse: Parser, cols: seq<ColumnMapping>, header: seq<string>, fields: seq<string>, md: map<string, string>, row: seq<Cell>)
    requires |row| == |cols| && forall j :: 0 <= j < |cols| ==> CellOf(parse, cols[j], header, fields, md) == Success(row[j])
    ensures !RowRefused(parse, cols, header, fields, md) && RowGets(parse, cols, header, fields, md, row)
  {
    forall j, v | 0 <= j < |cols| && Supplies(cols[j], header, fields, md, v)
      ensures !Refuses(parse, cols[j], v) && CellIs(parse, cols[j], v, row[j])
    {
      CellMeans(parse, cols[j], header, fields, md, v);
    }
  }

  lemma RefusedRow(parse: Parser, cols: seq<ColumnMapping>, header: seq<string>, fields: seq<string>, md: map<string, string>, row: seq<Cell>,
                   error: RowError)
    requires |row| < |cols| && forall j :: 0 <= j < |row| ==> CellOf(parse, cols[j], header, fields, md) == Success(row[j])
    requires CellOf(parse, cols[|row|], header, fields, md) == Failure(error)
    ensures FirstRefused(parse, cols, header, fields, md, |row|, error) && RowRefused(parse, cols, header, fields, md)
  {
    var c := cols[|row|];
    FilledRow(parse, cols[..|row|], header, fields, md, row);
    RawIsSupplied(c, header, fields, md);
    CellMeans(parse, c, header, fields, md, RawOf(c, header, fields, md));
  }

  // The cell of one column, by way of the values grouped by header.
  method FillCell(parse: Parser, c: ColumnMapping, byHeader: map<string, seq<string>>, ghost header: seq<string>, ghost fields: seq<string>,
                  md: map<string, string>) returns (r: Result<Cell, RowError>)
    requires Grouped(byHeader, header, fields)
    ensures r == CellOf(parse, c, header, fields, md)
  {
    var raw: Option<string> := None;
    if c.from == Metadata {
      if c.name in md { raw := Some(md[c.name]); }
    } else {
      var vals := if c.name in byHeader then byHeader[c.name] else [];
      if c.occurrence < |vals| { raw := Some(vals[c.occurrence]); }
    }
    assert raw == RawOf(c, header, fields, md);
    if raw.None? || raw.value == "" {
      return if c.required then Failure(MissingRequired(c.column)) else Success(Null);
    }
    var v := Convert(parse, c.typ, raw.value);
    return if v.None? then Failure(BadValue(c.column, raw.value)) else Success(v.value);
  }

  /**
   Fills one row: the key cells, then for each column what the record has for it; fails exactly when a column is refused, on the
   first such one.
   */
  method MapRow(parse: Parser, key: seq<Cell>, cols: seq<ColumnMapping>, header: seq<string>, fields: seq<string>,
                md: map<string, string>) returns (r: Result<seq<Cell>, RowError>)
    ensures r.Success? ==> |r.value| == |key| + |cols| && key <= r.value
    ensures r.Success? ==> forall j :: 0 <= j < |cols| ==>
      CellOf(parse, cols[j], header, fields, md) == Success(r.value[|key| + j])
    ensures r.Failure? ==> exists j :: 0 <= j < |cols| && CellOf(parse, cols[j], header, fields, md) == Failure(r.error)
    ensures r.Failure? <==> RowRefused(parse, cols, header, fields, md)
    ensures r.Failure? ==> exists j :: FirstRefused(parse, cols, header, fields, md, j, r.error)
    ensures r.Success? ==> RowGets(parse, cols, header, fields, md, r.value[|key|..])
  {
    var byHeader := GroupByHeader(header, fields);
    var values := key;
    for j := 0 to |cols|
      invariant |values| == |key| + j && key <= values
      invariant forall k :: 0 <= k < j ==> CellOf(parse, cols[k], header, fields, md) == Success(values[|key| + k])
    {
      var cell := FillCell(parse, cols[j], byHeader, header, fields, md);
      if cell.Failure? {
        RefusedRow(parse, cols, header, fields, md, values[|key|..], cell.error);
        return Failure(cell.error);
      }
      values := values + [cell.value];
    }
    FilledRow(parse, cols, header, fields, md, values[|key|..]);
    return Success(values);
  }

  // ---------------------------------------------------------------- no cell is lost

  ghost predicate NonBlank(header: seq<string>, i: nat) {
    i < |header| && Clean(header[i]) != ""
  }

  // The occurrence number under which position `i` is materialized.
  ghost function OccurrenceOf(header: seq<string>, i: nat): nat
    requires i < |header|
  {
    Count(Cleaned(header)[..i], Clean(header[i]))
  }

  ghost predicate IsColumnFor(c: ColumnMapping, header: seq<string>, i: nat)
    requires i < |header|
  {
    c.name == header[i] && c.occurrence == OccurrenceOf(header, i)
  }

  // Automatic columns are optional text columns filled from the header.
  predicate AutoShaped(c: ColumnMapping) {
    c.from == Csv && c.typ == TextColumn && !c.required
  }

  lemma {:induction false} DerivedShape(header: seq<string>, i: nat) returns (k: nat)
    requires NonBlank(header, i)
    ensures k < |Derived(header)| && IsColumnFor(Derived(header)[k], header, i)
    decreases |header|
  {
    var n := |header| - 1;
    CleanedPrefix(header, n);
    if i == n {
      k := |Derived(header)| - 1;
    } else {
      k := DerivedShape(header[..n], i);
      CleanedPrefix(header, i);
      CleanedPrefix(header[..n], i);
      assert header[..n][..i] == header[..i];
    }
  }

  lemma {:induction false} DerivedAuto(header: seq<string>)
    ensures forall k :: 0 <= k < |Derived(header)| ==> AutoShaped(Derived(header)[k])
    decreases |header|
  {
    if header != [] {
      DerivedAuto(header[..|header| - 1]);
    }
  }

  lemma {:induction false} MergedAuto(lower: char -> char, existing: seq<ColumnMapping>, derived: seq<ColumnMapping>)
    requires KeepsDigits(lower)
    requires forall c :: c in existing || c in derived ==> AutoShaped(c)
    ensures forall c :: c in Merged(lower, existing, derived) ==> AutoShaped(c)
    decreases |derived|
  {
    if derived != [] {
      var n := |derived| - 1;
      assert derived[n] in derived && forall c :: c in derived[..n] ==> c in derived;
      MergedAuto(lower, existing, derived[..n]);
    }
  }

  // Every named position has a column, and a column serves one position only.
  ghost predicate OneToOne(cols: seq<ColumnMapping>, header: seq<string>) {
    && (forall i :: NonBlank(header, i) ==> exists j :: 0 <= j < |cols| && IsColumnFor(cols[j], header, i))
    && (forall i, i', j, j' ::
          (NonBlank(header, i) && NonBlank(header, i') && 0 <= j < |cols| && 0 <= j' < |cols|
           && IsColumnFor(cols[j], header, i) && IsColumnFor(cols[j'], header, i')) ==> (i == i' <==> j == j'))
  }

  /** Every named position of a covered header has exactly one column, and no two positions share one. */
  lemma OneColumnPerPosition(lower: char -> char, cols: seq<ColumnMapping>, header: seq<string>)
    requires WellNamed(lower, cols) && Covers(cols, Derived(header))
    ensures OneToOne(cols, header)
  {
    forall i | NonBlank(header, i) ensures exists j :: 0 <= j < |cols| && IsColumnFor(cols[j], header, i) {
      var k := DerivedShape(header, i);
      var j :| 0 <= j < |cols| && SameKey(cols[j], Derived(header)[k]);
      assert IsColumnFor(cols[j], header, i);
    }
    forall i, i', j, j' | NonBlank(header, i) && NonBlank(header, i') && 0 <= j < |cols| && 0 <= j' < |cols|
                          && IsColumnFor(cols[j], header, i) && IsColumnFor(cols[j'], header, i')
      ensures i == i' <==> j == j'
    {
      if j == j' {
        CountSeparates(Cleaned(header), i, i');
      }
    }
  }

  // The cell a value is stored as in an automatic column.
  function TextCell(v: string): Cell {
    if v == "" then Null else Str(v)
  }

  // Column `c` stores, for every record, the value at header position `i`.
  ghost predicate Stores(parse: Parser, c: ColumnMapping, header: seq<string>, i: nat) {
    forall fields, md :: CellOf(parse, c, header, fields, md) == Success(TextCell(FieldAt(fields, i)))
  }

  /**
   The column of a position stores that position's value in every record exactly when cleaning the header does not
   merge it with a differently spelled field on its left.
   */
  lemma StoredIffCountsAgree(parse: Parser, c: ColumnMapping, header: seq<string>, i: nat)
    requires NonBlank(header, i) && AutoShaped(c) && IsColumnFor(c, header, i)
    ensures Stores(parse, c, header, i) <==> Count(header[..i], header[i]) == OccurrenceOf(header, i)
  {
    var k := c.occurrence;
    if Count(header[..i], header[i]) == k {
      forall fields, md ensures CellOf(parse, c, header, fields, md) == Success(TextCell(FieldAt(fields, i))) {
        ValueUnderAt(header, fields, i);
      }
    } else {
      NotStored(parse, c, header, i);
    }
  }

  lemma NotStored(parse: Parser, c: ColumnMapping, header: seq<string>, i: nat)
    requires i < |header| && AutoShaped(c) && c.name == header[i] && c.occurrence != Count(header[..i], header[i])
    ensures !Stores(parse, c, header, i)
  {
    var fields, k := seq(|header|, p => if p == i then "x" else ""), c.occurrence;
    if k < Count(header, header[i]) {
      var p := NthOccurrence(header, header[i], k);
      ValueUnderAt(header, fields, p);
      assert FieldAt(fields, p) == "";
    }
    assert CellOf(parse, c, header, fields, map[]) == Success(Null);
    assert FieldAt(fields, i) == "x";
  }

  /** A header in which a spelling variant comes first: the second field's value is not stored by its column. */
  lemma PaddedNameLosesCell(parse: Parser, c: ColumnMapping)
    requires AutoShaped(c) && IsColumnFor(c, ["A", " A"], 1)
    ensures NonBlank(["A", " A"], 1) && !Stores(parse, c, ["A", " A"], 1)
  {
    var header := ["A", " A"];
    assert TrimSpace("A") == "A" && DropControl("A") == "A";
    assert TrimLeft(" A") == TrimLeft(" A"[1..]) && " A"[1..] == "A";
    assert header[..1] == ["A"] && Cleaned(header)[..1] == ["A"];
    assert ["A"][..0] == [];
    assert Count(["A"], "A") == 1 && Count(["A"], " A") == 0;
    StoredIffCountsAgree(parse, c, header, 1);
  }

  // A header that reads the same after cleaning.
  ghost predicate CleanHeader(header: seq<string>) {
    forall i :: 0 <= i < |header| ==> Clean(header[i]) == header[i]
  }

  lemma CleanHeaderCounts(header: seq<string>, i: nat)
    requires CleanHeader(header) && i < |header|
    ensures Count(header[..i], header[i]) == OccurrenceOf(header, i)
  {
    assert Cleaned(header) == header;
  }

  // ---------------------------------------------------------------- any sequence of headers

  ghost function Evolved(lower: char -> char, headers: seq<seq<string>>): seq<ColumnMapping>
    requires KeepsDigits(lower)
  {
    if headers == [] then [] else
      var n := |headers| - 1;
      Merged(lower, Evolved(lower, headers[..n]), Derived(headers[n]))
  }

  lemma {:induction false} EvolvedAuto(lower: char -> char, headers: seq<seq<string>>)
    requires KeepsDigits(lower)
    ensures WellNamed(lower, Evolved(lower, headers))
    ensures forall c :: c in Evolved(lower, headers) ==> AutoShaped(c)
    decreases |headers|
  {
    if headers != [] {
      var n := |headers| - 1;
      EvolvedAuto(lower, headers[..n]);
      DerivedAuto(headers[n]);
      MergedAuto(lower, Evolved(lower, headers[..n]), Derived(headers[n]));
      MergeKeeps(lower, Evolved(lower, headers[..n]), Derived(headers[n]));
    }
  }

  lemma EvolvedStep(lower: char -> char, headers: seq<seq<string>>)
    requires KeepsDigits(lower) && headers != []
    ensures Extends(Evolved(lower, headers[..|headers| - 1]), Evolved(lower, headers))
    ensures Covers(Evolved(lower, headers), Derived(headers[|headers| - 1]))
  {
    MergeKeeps(lower, Evolved(lower, headers[..|headers| - 1]), Derived(headers[|headers| - 1]));
  }

  lemma {:induction false} EvolvedCovers(lower: char -> char, headers: seq<seq<string>>, k: nat)
    requires KeepsDigits(lower) && k < |headers|
    ensures Covers(Evolved(lower, headers), Derived(headers[k]))
    decreases |headers|, 1
  {
    EvolvedStep(lower, headers);
    if k < |headers| - 1 {
      EvolvedCoversEarlier(lower, headers, k);
    }
  }

  lemma EvolvedCoversEarlier(lower: char -> char, headers: seq<seq<string>>, k: nat)
    requires KeepsDigits(lower) && k < |headers| - 1
    ensures Covers(Evolved(lower, headers), Derived(headers[k]))
    decreases |headers|, 0
  {
    var before, h := headers[..|headers| - 1], headers[k];
    assert before[k] == h;
    EvolvedCovers(lower, before, k);
    EvolvedStep(lower, headers);
    CoversExtends(Evolved(lower, before), Evolved(lower, headers), Derived(h));
  }

  // For a clean header, each position's column stores that position's value.
  ghost predicate StoresAll(parse: Parser, cols: seq<ColumnMapping>, header: seq<string>) {
    CleanHeader(header) ==> forall i, j ::
      NonBlank(header, i) && 0 <= j < |cols| && IsColumnFor(cols[j], header, i) ==> Stores(parse, cols[j], header, i)
  }

  /**
   After any sequence of headers, each named position of each of them has exactly one column, distinct positions have
   distinct columns, and for a clean header the column stores the value of its position in every record.
   */
  lemma NoCellLost(lower: char -> char, parse: Parser, headers: seq<seq<string>>, k: nat)
    requires KeepsDigits(lower) && k < |headers|
    ensures OneToOne(Evolved(lower, headers), headers[k])
    ensures StoresAll(parse, Evolved(lower, headers), headers[k])
  {
    var cols, h := Evolved(lower, headers), headers[k];
    EvolvedAuto(lower, headers);
    EvolvedCovers(lower, headers, k);
    OneColumnPerPosition(lower, cols, h);
    if CleanHeader(h) {
      forall i, j | NonBlank(h, i) && 0 <= j < |cols| && IsColumnFor(cols[j], h, i) ensures Stores(parse, cols[j], h, i) {
        CleanHeaderCounts(h, i);
        assert cols[j] in cols;
        StoredIffCountsAgree(parse, cols[j], h, i);
      }
    }
  }

  // The row has one cell per column, and the value of each named position in that position's column.
  ghost predicate RowHolds(cols: seq<ColumnMapping>, header: seq<string>, fields: seq<string>, row: seq<Cell>) {
    && |row| == |cols|
    && forall i, j :: NonBlank(header, i) && 0 <= j < |cols| && IsColumnFor(cols[j], header, i)
                      ==> row[j] == TextCell(FieldAt(fields, i))
  }

  lemma RowIsHeld(parse: Parser, cols: seq<ColumnMapping>, header: seq<string>, fields: seq<string>, row: seq<Cell>)
    requires StoresAll(parse, cols, header) && |row| == |cols|
    requires forall j :: 0 <= j < |cols| ==> CellOf(parse, cols[j], header, fields, map[]) == Success(row[j])
    ensures CleanHeader(header) ==> RowHolds(cols, header, fields, row)
  {
    if CleanHeader(header) {
      forall i, j | NonBlank(header, i) && 0 <= j < |cols| && IsColumnFor(cols[j], header, i)
        ensures row[j] == TextCell(FieldAt(fields, i))
      {
        assert Stores(parse, cols[j], header, i);
      }
    }
  }

  // An automatic column takes any value.
  lemma AutoCellNeverFails(lower: char -> char, parse: Parser, headers: seq<seq<string>>, header: seq<string>, fields: seq<string>, j: nat)
    requires KeepsDigits(lower) && j < |Evolved(lower, headers)|
    ensures CellOf(parse, Evolved(lower, headers)[j], header, fields, map[]).Success?
  {
    EvolvedAuto(lower, headers);
    assert Evolved(lower, headers)[j] in Evolved(lower, headers);
  }

  lemma LastIsHeld(lower: char -> char, parse: Parser, headers: seq<seq<string>>, fields: seq<string>, row: seq<Cell>)
    requires KeepsDigits(lower) && headers != [] && |row| == |Evolved(lower, headers)|
    requires var cols, h := Evolved(lower, headers), headers[|headers| - 1];
             forall j :: 0 <= j < |cols| ==> CellOf(parse, cols[j], h, fields, map[]) == Success(row[j])
    ensures var cols, h := Evolved(lower, headers), headers[|headers| - 1];
            OneToOne(cols, h) && (CleanHeader(h) ==> RowHolds(cols, h, fields, row))
  {
    NoCellLost(lower, parse, headers, |headers| - 1);
    RowIsHeld(parse, Evolved(lower, headers), headers[|headers| - 1], fields, row);
  }

  /** The sink with automatic columns: the column list in force and the headers it was grown from. */
  class AutoTable {
    const lower: char -> char
    var autoCols: Option<seq<ColumnMapping>>
    ghost var headers: seq<seq<string>>

    function EffectiveColumns(): seq<ColumnMapping>
      reads this
    {
      if autoCols.Some? then autoCols.value else []
    }

    ghost predicate Valid()
      reads this
    {
      KeepsDigits(lower) && EffectiveColumns() == Evolved(lower, headers)
    }

    constructor (lower: char -> char)
      requires KeepsDigits(lower)
      ensures Valid() && headers == [] && this.lower == lower
    {
      this.lower := lower;
      autoCols := None;
      headers := [];
    }

    /** Adds the columns of a header; a schema change that fails leaves the column list as it was. `altered`: it succeeds. */
    method EvolveAutoColumns(header: seq<string>, altered: bool) returns (ok: bool)
      requires Valid()
      modifies this
      ensures Valid()
      ensures ok <==> altered || Merged(lower, old(EffectiveColumns()), Derived(header)) == old(EffectiveColumns())
      ensures headers == if ok then old(headers) + [header] else old(headers)
      ensures EffectiveColumns() == if ok then Merged(lower, old(EffectiveColumns()), Derived(header)) else old(EffectiveColumns())
    {
      var derived := DeriveColumns(header);
      var prev := autoCols;
      var merged, grew := MergeDerivedCols(lower, prev, derived);
      ghost var hs := headers + [header];
      assert hs[..|headers|] == headers;
      if !grew {
        headers := hs;
        return true;
      }
      autoCols := Some(merged);
      ok := altered;
      if ok {
        headers := hs;
      } else {
        autoCols := prev;
      }
    }

    // Maps one record over the columns in force, which take any record.
    method MapEvolved(parse: Parser, key: seq<Cell>, header: seq<string>, fields: seq<string>) returns (values: seq<Cell>)
      requires Valid()
      ensures key <= values && |values| == |key| + |EffectiveColumns()|
      ensures forall j :: 0 <= j < |EffectiveColumns()| ==>
        CellOf(parse, EffectiveColumns()[j], header, fields, map[]) == Success(values[|key| + j])
    {
      var row := MapRow(parse, key, EffectiveColumns(), header, fields, map[]);
      if row.Failure? {
        ghost var j :| 0 <= j < |EffectiveColumns()| && CellOf(parse, EffectiveColumns()[j], header, fields, map[]) == Failure(row.error);
        AutoCellNeverFails(lower, parse, headers, header, fields, j);
        assert false;
      }
      return row.value;
    }

    /** One record of a batch: evolve, then map. Each named position of a clean header ends up in its own column. */
    method StoreRecord(parse: Parser, key: seq<Cell>, header: seq<string>, fields: seq<string>, altered: bool) returns (r: Option<seq<Cell>>)
      requires Valid() && header != []
      modifies this
      ensures Valid() && (altered ==> r.Some?)
      ensures r.Some? ==> key <= r.value && OneToOne(EffectiveColumns(), header)
      ensures r.Some? && CleanHeader(header) ==> RowHolds(EffectiveColumns(), header, fields, r.value[|key|..])
    {
      var ok := EvolveAutoColumns(header, altered);
      if !ok {
        return None;
      }
      var values := MapEvolved(parse, key, header, fields);
      LastIsHeld(lower, parse, headers, fields, values[|key|..]);
      return Some(values);
    }
  }
}
