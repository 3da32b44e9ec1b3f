/**
 Cutting a sequence into pieces of a fixed size, as the collector does with the records of a file and the table sink
 with the rows of a batch, and the numbering of the bind parameters of a multi-row statement.
 */
module MultiRow {

  // ---------------------------------------------------------------- cutting

  function Cut<T>(s: seq<T>, n: nat): seq<seq<T>>
    requires n > 0
  {
    if s == [] then [] else if |s| <= n then [s] else [s[..n]] + Cut(s[n..], n)
  }

  function Concat<T>(pieces: seq<seq<T>>): seq<T> {
    if pieces == [] then [] else pieces[0] + Concat(pieces[1..])
  }

  /** Cutting loses and duplicates nothing, keeps the order, and fills every piece but the last. */
  lemma {:induction false} CutConserves<T>(s: seq<T>, n: nat)
    requires n > 0
    ensures Concat(Cut(s, n)) == s
    ensures forall k :: 0 <= k < |Cut(s, n)| ==> 1 <= |Cut(s, n)[k]| <= n
    ensures forall k :: 0 <= k < |Cut(s, n)| - 1 ==> |Cut(s, n)[k]| == n
    decreases |s|
  {
    if s == [] {
    } else if |s| <= n {
      assert [s][1..] == [];
    } else {
      CutConserves(s[n..], n);
      var pieces := Cut(s, n);
      assert pieces[1..] == Cut(s[n..], n) && s == s[..n] + s[n..];
      assert Cut(s[n..], n) != [];
    }
  }

  // Cuts into pieces of exactly `n`.
  predicate Full<T>(s: seq<T>, n: nat)
    requires n > 0
    decreases |s|
  {
    s == [] || (|s| >= n && Full(s[n..], n))
  }

  /** One more piece behind full ones is one more piece of the cut. */
  lemma {:induction false} CutExtends<T>(s: seq<T>, a: seq<T>, n: nat)
    requires n > 0 && Full(s, n) && 1 <= |a| <= n
    ensures Cut(s + a, n) == Cut(s, n) + [a]
    ensures |a| == n ==> Full(s + a, n)
    decreases |s|
  {
    if s == [] {
      assert s + a == a && a[|a|..] == [];
    } else {
      CutExtends(s[n..], a, n);
      assert (s + a)[n..] == s[n..] + a && (s + a)[..n] == s[..n];
      if |s| == n {
        assert s[n..] == [] && s[..n] == s && s[n..] + a == a;
      }
    }
  }

  function Total<T>(pieces: seq<seq<T>>): nat {
    if pieces == [] then 0 else |pieces[0]| + Total(pieces[1..])
  }

  lemma {:induction false} TotalIsLength<T>(pieces: seq<seq<T>>)
    ensures Total(pieces) == |Concat(pieces)|
    decreases |pieces|
  {
    if pieces != [] {
      TotalIsLength(pieces[1..]);
    }
  }

  // ---------------------------------------------------------------- chunk size

  const MAX_CHUNK_ROWS := 1000

  datatype Dialect = MySql | Sqlite | Postgres | Oracle | SqlServer

  // The most rows the sink puts into one statement.
  function RowCap(dialect: Dialect): nat {
    match dialect
    case Oracle => 200
    case SqlServer => 500
    case _ => MAX_CHUNK_ROWS
  }

  // The binds the sink keeps a statement within, where one row alone does not exceed them.
  function BindTarget(dialect: Dialect): nat {
    match dialect
    case Sqlite => 30000
    case Postgres => 60000
    case _ => 65535
  }

  // The binds the database takes in one statement; of SQL Server's 2100 parameters the driver's call needs two itself.
  function BindLimit(dialect: Dialect): nat {
    match dialect
    case Sqlite => 32766
    case SqlServer => 2098
    case _ => 65535
  }

  // As many rows as stay within cap and target, and one at least.
  function ChunkRows(dialect: Dialect, colCount: int): (n: nat)
    ensures 1 <= n <= RowCap(dialect) <= MAX_CHUNK_ROWS
  {
    var m := BindTarget(dialect) / (if colCount <= 0 then 1 else colCount);
    if m < 1 then 1 else if m > RowCap(dialect) then RowCap(dialect) else m
  }

  /** Rows per statement, narrowed step by step. */
  method ChunkRowsFor(dialect: Dialect, colCount: int) returns (n: nat)
    ensures n == ChunkRows(dialect, colCount)
  {
    var cols := if colCount <= 0 then 1 else colCount;
    var m := 1000;
    match dialect {
      case Oracle => m := 200;
      case SqlServer => m := 500;
      case Sqlite => m := 30000 / cols; QuotientGrows(30000, 65535, cols);
      case Postgres => m := 60000 / cols; QuotientGrows(60000, 65535, cols);
      case MySql =>
    }
    if m > 65535 / cols {
      m := 65535 / cols;
    }
    if m > 1000 {
      m := 1000;
    }
    if m < 1 {
      m := 1;
    }
    n := m;
  }

  lemma QuotientGrows(x: nat, y: nat, c: int)
    requires c > 0 && x <= y
    ensures x / c <= y / c
  {
    QuotientBounds(x, c);
    QuotientBounds(y, c);
    ProductUpTo(y / c + 1, x / c, c);
  }

  lemma QuotientBounds(x: nat, c: int)
    requires c > 0
    ensures (x / c) * c <= x < (x / c + 1) * c
  {
  }

  lemma ProductUpTo(a: int, b: int, c: int)
    requires c >= 0
    ensures a <= b ==> a * c <= b * c
  {
  }

  /** It is the largest number of rows within the cap whose binds stay within the target, unless one row exceeds it. */
  lemma ChunkRowsIsLargest(dialect: Dialect, cols: nat)
    requires cols > 0
    ensures var n := ChunkRows(dialect, cols);
      && (n == 1 || n * cols <= BindTarget(dialect))
      && (n == RowCap(dialect) || (n + 1) * cols > BindTarget(dialect))
  {
    var x, n := BindTarget(dialect), ChunkRows(dialect, cols);
    QuotientBounds(x, cols);
    ProductUpTo(n, x / cols, cols);
    ProductUpTo(x / cols + 1, n + 1, cols);
  }

  /** In numbers: narrow tables go by the cap alone, wide ones by their binds, and the widest row by row. */
  lemma ChunkTable(cols: nat)
    ensures ChunkRows(MySql, 0) == 1000 && ChunkRows(Oracle, 0) == 200 && ChunkRows(SqlServer, 0) == 500
    ensures 0 < cols <= 65 ==> ChunkRows(MySql, cols) == 1000
    ensures 0 < cols <= 30 ==> ChunkRows(Sqlite, cols) == 1000
    ensures 0 < cols <= 60 ==> ChunkRows(Postgres, cols) == 1000
    ensures 0 < cols <= 327 ==> ChunkRows(Oracle, cols) == 200
    ensures 0 < cols <= 131 ==> ChunkRows(SqlServer, cols) == 500
    ensures ChunkRows(MySql, 100) == 655 && ChunkRows(Sqlite, 100) == 300 && ChunkRows(Postgres, 100) == 600
    ensures cols > 65535 ==> forall d :: ChunkRows(d, cols) == 1
  {
    if 0 < cols {
      CapFits(MySql, cols, 65);
      CapFits(Sqlite, cols, 30);
      CapFits(Postgres, cols, 60);
      CapFits(Oracle, cols, 327);
      CapFits(SqlServer, cols, 131);
      forall d | cols > 65535 ensures ChunkRows(d, cols) == 1 {
        ChunkRowsIsLargest(d, cols);
        ProductUpTo(2, ChunkRows(d, cols), cols);
      }
    }
  }

  lemma CapFits(dialect: Dialect, cols: nat, most: nat)
    requires 0 < cols && RowCap(dialect) * most <= BindTarget(dialect)
    ensures cols <= most ==> ChunkRows(dialect, cols) == RowCap(dialect)
  {
    if cols <= most {
      var n := ChunkRows(dialect, cols);
      ChunkRowsIsLargest(dialect, cols);
      if n < RowCap(dialect) {
        ProductUpTo(n + 1, RowCap(dialect), cols);
        ProductUpTo(cols, most, RowCap(dialect));
        assert false;
      }
    }
  }

  // ---------------------------------------------------------------- what the databases take

  function Smaller(a: nat, b: nat): nat {
    if a <= b then a else b
  }

  // The largest statement of a batch is within the limit.
  predicate Fits(dialect: Dialect, rows: nat, cols: nat) {
    Smaller(rows, ChunkRows(dialect, cols)) * cols <= BindLimit(dialect)
  }

  /** Except for SQL Server every batch fits whose rows fit one by one. */
  lemma OthersFit(dialect: Dialect, rows: nat, cols: nat)
    requires dialect != SqlServer
    ensures Fits(dialect, rows, cols) <==> rows == 0 || cols <= BindLimit(dialect)
  {
    var n := ChunkRows(dialect, cols);
    if cols > 0 && rows > 0 {
      ChunkRowsIsLargest(dialect, cols);
      ProductUpTo(Smaller(rows, n), n, cols);
      ProductUpTo(1, Smaller(rows, n), cols);
    }
  }

  /** For SQL Server a batch that fills a statement fits exactly with four columns or less. */
  lemma SqlServerFits(rows: nat, cols: nat)
    ensures Fits(SqlServer, rows, cols) <==> Smaller(rows, ChunkRows(SqlServer, cols)) * cols <= 2098
    ensures rows >= RowCap(SqlServer) ==> (Fits(SqlServer, rows, cols) <==> cols <= 4)
  {
    var n := ChunkRows(SqlServer, cols);
    if cols > 0 && rows >= 500 {
      ChunkRowsIsLargest(SqlServer, cols);
      ProductUpTo(1, n, cols);
      if cols >= 5 && n < 500 {
        assert (n + 1) * cols == n * cols + cols;
      }
    }
  }

  /** So a full batch of the default size is refused for every table of five columns or more. */
  lemma DefaultBatchIsRefused(cols: nat)
    ensures !Fits(SqlServer, 1000, cols) <==> cols >= 5
  {
    SqlServerFits(1000, cols);
  }

  // ---------------------------------------------------------------- binds

  // i * cols, by addition.
  function Offset(i: nat, cols: nat): nat {
    if i == 0 then 0 else Offset(i - 1, cols) + cols
  }

  lemma {:induction false} OffsetIsProduct(i: nat, cols: nat)
    ensures Offset(i, cols) == i * cols
    decreases i
  {
    if i > 0 {
      OffsetIsProduct(i - 1, cols);
      assert i * cols == (i - 1) * cols + cols;
    }
  }

  ghost predicate Rectangular<T>(rows: seq<seq<T>>, cols: nat) {
    forall k :: 0 <= k < |rows| ==> |rows[k]| == cols
  }

  lemma {:induction false} ConcatLength<T>(rows: seq<seq<T>>, cols: nat)
    requires Rectangular(rows, cols)
    ensures |Concat(rows)| == Offset(|rows|, cols)
    decreases |rows|
  {
    if rows != [] {
      ConcatLength(rows[1..], cols);
    }
  }

  lemma {:induction false} ConcatAt<T>(rows: seq<seq<T>>, cols: nat, i: nat, j: nat)
    requires Rectangular(rows, cols) && i < |rows| && j < cols
    ensures Offset(i, cols) + j < |Concat(rows)| && Concat(rows)[Offset(i, cols) + j] == rows[i][j]
    decreases |rows|
  {
    if i > 0 {
      ConcatAt(rows[1..], cols, i - 1, j);
      var rest, at := Concat(rows[1..]), Offset(i - 1, cols) + j;
      assert Concat(rows)[cols + at] == rest[at] && rows[1..][i - 1] == rows[i];
    }
  }

  // The parameter numbers of one row of a statement.
  method Placeholders(start: nat, count: nat) returns (out: seq<nat>)
    ensures |out| == count && forall j :: 0 <= j < count ==> out[j] == start + j
  {
    out := [];
    for j := 0 to count
      invariant |out| == j && forall k :: 0 <= k < j ==> out[k] == start + k
    {
      out := out + [start + j];
    }
  }

  // Row i of the statement is numbered from `Offset(i, cols) + 1` on.
  ghost predicate RowNumbered(row: seq<nat>, i: nat, cols: nat) {
    |row| == cols && forall j :: 0 <= j < cols ==> row[j] == Offset(i, cols) + j + 1
  }

  method ValueRows(cols: nat, n: nat) returns (rows: seq<seq<nat>>)
    ensures |rows| == n && forall i :: 0 <= i < n ==> RowNumbered(rows[i], i, cols)
  {
    rows := [];
    for i := 0 to n
      invariant |rows| == i && forall k :: 0 <= k < i ==> RowNumbered(rows[k], k, cols)
    {
      OffsetIsProduct(i, cols);
      var ph := Placeholders(i * cols + 1, cols);
      rows := rows + [ph];
    }
  }

  datatype Statement<T> = Statement(numbers: seq<seq<nat>>, args: seq<T>)

  // The argument that the parameter of row i, column j refers to is that row's j-th value.
  ghost predicate BindsRows<T>(st: Statement<T>, rows: seq<seq<T>>, cols: nat) {
    && |st.numbers| == |rows| && Rectangular(rows, cols)
    && |st.args| == Offset(|rows|, cols)
    && (forall i :: 0 <= i < |rows| ==> RowNumbered(st.numbers[i], i, cols))
    && (forall i, j :: 0 <= i < |rows| && 0 <= j < cols ==>
          st.numbers[i][j] <= |st.args| && st.args[st.numbers[i][j] - 1] == rows[i][j])
  }

  lemma ConcatBinds<T>(numbers: seq<seq<nat>>, rows: seq<seq<T>>, cols: nat)
    requires Rectangular(rows, cols)
    requires |numbers| == |rows| && forall i :: 0 <= i < |rows| ==> RowNumbered(numbers[i], i, cols)
    ensures BindsRows(Statement(numbers, Concat(rows)), rows, cols)
  {
    ConcatLength(rows, cols);
    forall i, j | 0 <= i < |rows| && 0 <= j < cols
      ensures numbers[i][j] <= |Concat(rows)| && Concat(rows)[numbers[i][j] - 1] == rows[i][j]
    {
      BindAt(numbers[i], rows, cols, i, j);
    }
  }

  lemma BindAt<T>(row: seq<nat>, rows: seq<seq<T>>, cols: nat, i: nat, j: nat)
    requires Rectangular(rows, cols) && i < |rows| && j < cols && RowNumbered(row, i, cols)
    ensures row[j] <= |Concat(rows)| && Concat(rows)[row[j] - 1] == rows[i][j]
  {
    ConcatAt(rows, cols, i, j);
  }

  /** Parameter i*cols+j+1 of a statement carries column j of row i. */
  lemma BindNumber<T>(st: Statement<T>, rows: seq<seq<T>>, cols: nat, i: nat, j: nat)
    requires BindsRows(st, rows, cols) && i < |rows| && j < cols
    ensures st.numbers[i][j] == i * cols + j + 1 <= |st.args| == |rows| * cols
    ensures st.args[i * cols + j] == rows[i][j]
  {
    OffsetIsProduct(i, cols);
    OffsetIsProduct(|rows|, cols);
    assert RowNumbered(st.numbers[i], i, cols);
  }

  // One statement per chunk of `chunks`.
  ghost predicate Writes<T>(stmts: seq<Statement<T>>, chunks: seq<seq<seq<T>>>, cols: nat) {
    |stmts| == |chunks| && forall k :: 0 <= k < |stmts| ==> BindsRows(stmts[k], chunks[k], cols)
  }

  method BuildStatement<T>(cols: nat, chunk: seq<seq<T>>) returns (st: Statement<T>)
    requires Rectangular(chunk, cols)
    ensures BindsRows(st, chunk, cols)
  {
    var numbers := ValueRows(cols, |chunk|);
    ConcatBinds(numbers, chunk, cols);
    st := Statement(numbers, Concat(chunk));
  }

  lemma NextChunk<T>(rows: seq<T>, start: nat, n: nat, done: seq<seq<T>>)
    requires n > 0 && start < |rows| && Cut(rows, n) == done + Cut(rows[start..], n)
    ensures var end := if start + n > |rows| then |rows| else start + n;
      Cut(rows, n) == (done + [rows[start..end]]) + Cut(rows[end..], n)
  {
    var rest := rows[start..];
    if |rest| > n {
      assert rest[..n] == rows[start..start + n] && rest[n..] == rows[start + n..];
    } else {
      assert rows[start..|rows|] == rest && rows[|rows|..] == [];
    }
  }

  // The first piece is the largest.
  lemma {:induction false} FirstIsLargest<T>(s: seq<T>, n: nat, k: nat)
    requires n > 0 && k < |Cut(s, n)|
    ensures |Cut(s, n)[k]| <= |Cut(s, n)[0]| == Smaller(|s|, n)
  {
    CutConserves(s, n);
    if |s| <= n {
      assert |Cut(s, n)| == 1;
    }
  }

  lemma StatementBinds<T>(st: Statement<T>, chunk: seq<seq<T>>, cols: nat, most: nat, binds: nat)
    requires BindsRows(st, chunk, cols) && |chunk| <= most && binds == most * cols
    ensures |st.args| <= binds && (|chunk| == most ==> |st.args| == binds)
  {
    OffsetIsProduct(|chunk|, cols);
    ProductUpTo(|chunk|, most, cols);
  }

  // No statement has more arguments than so many, and the first has them all.
  ghost predicate Peaks<T>(stmts: seq<Statement<T>>, binds: nat) {
    && (forall k :: 0 <= k < |stmts| ==> |stmts[k].args| <= binds)
    && (stmts != [] ==> |stmts[0].args| == binds)
  }

  lemma ChunksPeak<T>(stmts: seq<Statement<T>>, chunks: seq<seq<seq<T>>>, cols: nat, most: nat, binds: nat)
    requires Writes(stmts, chunks, cols) && binds == most * cols
    requires forall k :: 0 <= k < |chunks| ==> |chunks[k]| <= |chunks[0]| == most
    ensures Peaks(stmts, binds)
  {
    forall k | 0 <= k < |stmts| ensures |stmts[k].args| <= binds && (k == 0 ==> |stmts[k].args| == binds) {
      StatementBinds(stmts[k], chunks[k], cols, most, binds);
    }
  }

  lemma CutPeaks<T>(rows: seq<seq<T>>, n: nat, cols: nat, stmts: seq<Statement<T>>, binds: nat)
    requires n > 0 && Writes(stmts, Cut(rows, n), cols) && binds == Smaller(|rows|, n) * cols
    ensures Peaks(stmts, binds) && (stmts == [] ==> binds == 0)
  {
    var chunks := Cut(rows, n);
    forall k | 0 <= k < |chunks| ensures |chunks[k]| <= |chunks[0]| == Smaller(|rows|, n) { FirstIsLargest(rows, n, k); }
    ChunksPeak(stmts, chunks, cols, Smaller(|rows|, n), binds);
  }

  // All within a limit, which is so exactly when the first is.
  lemma PeakDecides<T>(stmts: seq<Statement<T>>, binds: nat, limit: nat)
    requires Peaks(stmts, binds) && (stmts == [] ==> binds == 0)
    ensures Within(stmts, limit) <==> binds <= limit
  {
  }

  ghost predicate Within<T>(stmts: seq<Statement<T>>, limit: nat) {
    forall k :: 0 <= k < |stmts| ==> |stmts[k].args| <= limit
  }

  /** The statements of a batch are all within the limit exactly when the batch fits. */
  lemma StatementsFitIff<T>(dialect: Dialect, cols: nat, rows: seq<seq<T>>, stmts: seq<Statement<T>>, n: nat)
    requires n == ChunkRows(dialect, cols) && Writes(stmts, Cut(rows, n), cols)
    ensures Within(stmts, BindLimit(dialect)) <==> Fits(dialect, |rows|, cols)
  {
    var binds := Smaller(|rows|, n) * cols;
    CutPeaks(rows, n, cols, stmts, binds);
    PeakDecides(stmts, binds, BindLimit(dialect));
  }

  /** The chunk loop of a table write: the statements cover the rows once and in order, and are accepted exactly when the batch fits. */
  method BuildStatements<T>(dialect: Dialect, cols: nat, rows: seq<seq<T>>) returns (stmts: seq<Statement<T>>)
    requires Rectangular(rows, cols)
    ensures Writes(stmts, Cut(rows, ChunkRows(dialect, cols)), cols)
    ensures Within(stmts, BindLimit(dialect)) <==> Fits(dialect, |rows|, cols)
  {
    var size := ChunkRowsFor(dialect, cols);
    stmts := [];
    ghost var chunks: seq<seq<seq<T>>> := [];
    var start := 0;
    assert rows[0..] == rows;
    while start < |rows|
      invariant start <= |rows| && Cut(rows, size) == chunks + Cut(rows[start..], size)
      invariant Writes(stmts, chunks, cols)
    {
      NextChunk(rows, start, size, chunks);
      var end := if start + size > |rows| then |rows| else start + size;
      var st := BuildStatement(cols, rows[start..end]);
      stmts, chunks, start := stmts + [st], chunks + [rows[start..end]], end;
    }
    assert chunks + [] == chunks;
    StatementsFitIff(dialect, cols, rows, stmts, size);
  }
}
