/** The idempotent row store: a row is identified by its file's identity and its row number, and is stored once. */
module Storage {
  import opened Text
  import opened Model

  datatype StoredRow = StoredRow(key: CollectionKey, file: FileIdentity, record: Record, header: seq<string>)

  datatype StoredBatch = StoredBatch(key: CollectionKey, file: FileIdentity, sequence: nat, header: seq<string>, records: nat)

  type Tables = map<string, seq<StoredRow>>

  function RowsOf(t: Tables, id: string): seq<StoredRow> {
    if id in t then t[id] else []
  }

  predicate HasNumber(rows: seq<StoredRow>, n: int) {
    exists i :: 0 <= i < |rows| && rows[i].record.rowNumber == n
  }

  // The rows of one file after the first `n` records of a batch were offered: a number already present is kept as it is.
  function Stored(rows: seq<StoredRow>, batch: Batch, n: nat): seq<StoredRow>
    requires n <= |batch.records|
  {
    if n == 0 then rows
    else
      var before, rec := Stored(rows, batch, n - 1), batch.records[n - 1];
      if HasNumber(before, rec.rowNumber) then before else before + [StoredRow(batch.key, batch.file, rec, batch.header)]
  }

  // The tables after the first `n` records of a batch were offered.
  function FirstStored(t: Tables, batch: Batch, n: nat): Tables
    requires n <= |batch.records|
  {
    if n == 0 then t else t[Identity(batch.file) := Stored(RowsOf(t, Identity(batch.file)), batch, n)]
  }

  function StoreBatch(t: Tables, batch: Batch): Tables {
    FirstStored(t, batch, |batch.records|)
  }

  ghost predicate DistinctNumbers(rows: seq<StoredRow>) {
    forall i, j :: 0 <= i < j < |rows| ==> rows[i].record.rowNumber != rows[j].record.rowNumber
  }

  // Where a stored row comes from: it was there before, or it is one of the first `n` records of the batch.
  ghost predicate ComesFrom(rows: seq<StoredRow>, batch: Batch, n: nat, r: StoredRow)
    requires n <= |batch.records|
  {
    r in rows || exists i :: 0 <= i < n && r == StoredRow(batch.key, batch.file, batch.records[i], batch.header)
  }

  /**
   Storing only appends, keeps row numbers distinct, leaves every offered number present, and adds nothing but offered
   records.
   */
  lemma {:induction false} StoredOnce(rows: seq<StoredRow>, batch: Batch, n: nat)
    requires n <= |batch.records| && DistinctNumbers(rows)
    ensures rows <= Stored(rows, batch, n) && DistinctNumbers(Stored(rows, batch, n))
    ensures forall i :: 0 <= i < n ==> HasNumber(Stored(rows, batch, n), batch.records[i].rowNumber)
    ensures forall r :: r in Stored(rows, batch, n) ==> ComesFrom(rows, batch, n, r)
  {
    if n > 0 {
      StoredOnce(rows, batch, n - 1);
      var before, after, rec := Stored(rows, batch, n - 1), Stored(rows, batch, n), batch.records[n - 1];
      forall r | r in after ensures ComesFrom(rows, batch, n, r) {
        if r in before { assert ComesFrom(rows, batch, n - 1, r); }
      }
      forall m | HasNumber(before, m) || m == rec.rowNumber ensures HasNumber(after, m) {
        if HasNumber(before, m) {
          var i :| 0 <= i < |before| && before[i].record.rowNumber == m;
          assert after[i].record.rowNumber == m;
        } else {
          assert after[|before|].record.rowNumber == m;
        }
      }
    }
  }

  /** The first record offered under a free number is the one stored under it, with the batch's key and header. */
  lemma {:induction false} FirstIsStored(rows: seq<StoredRow>, batch: Batch, n: nat, i: nat)
    requires i < n <= |batch.records| && DistinctNumbers(rows)
    requires !HasNumber(rows, batch.records[i].rowNumber)
    requires forall j :: 0 <= j < i ==> batch.records[j].rowNumber != batch.records[i].rowNumber
    ensures StoredRow(batch.key, batch.file, batch.records[i], batch.header) in Stored(rows, batch, n)
    decreases n
  {
    if i < n - 1 {
      FirstIsStored(rows, batch, n - 1, i);
      assert Stored(rows, batch, n - 1) <= Stored(rows, batch, n);
    } else {
      StoredOnce(rows, batch, i);
      NumbersComeFrom(rows, batch, i, batch.records[i].rowNumber);
      var before, row := Stored(rows, batch, i), StoredRow(batch.key, batch.file, batch.records[i], batch.header);
      assert (before + [row])[|before|] == row;
    }
  }

  lemma NumbersComeFrom(rows: seq<StoredRow>, batch: Batch, n: nat, m: int)
    requires n <= |batch.records| && !HasNumber(rows, m) && forall j :: 0 <= j < n ==> batch.records[j].rowNumber != m
    requires forall r :: r in Stored(rows, batch, n) ==> ComesFrom(rows, batch, n, r)
    ensures !HasNumber(Stored(rows, batch, n), m)
  {
    forall k | 0 <= k < |Stored(rows, batch, n)| ensures Stored(rows, batch, n)[k].record.rowNumber != m {
      assert ComesFrom(rows, batch, n, Stored(rows, batch, n)[k]);
    }
  }

  /** Offering a batch again changes nothing. */
  lemma {:induction false} StoredAgain(rows: seq<StoredRow>, batch: Batch, n: nat)
    requires n <= |batch.records| && forall i :: 0 <= i < n ==> HasNumber(rows, batch.records[i].rowNumber)
    ensures Stored(rows, batch, n) == rows
  {
    if n > 0 { StoredAgain(rows, batch, n - 1); }
  }

  /** Writing the same batch twice leaves the tables as writing it once did, even under another key. */
  lemma WriteIsIdempotent(t: Tables, batch: Batch, again: Batch)
    requires DistinctNumbers(RowsOf(t, Identity(batch.file)))
    requires again.file == batch.file && again.records == batch.records
    ensures StoreBatch(StoreBatch(t, batch), again) == StoreBatch(t, batch)
  {
    StoredOnce(RowsOf(t, Identity(batch.file)), batch, |batch.records|);
    StoredAgain(RowsOf(StoreBatch(t, batch), Identity(batch.file)), again, |batch.records|);
  }

  // ---------------------------------------------------------------- the object

  // The text under which a row is looked up.
  function RowKey(id: string, n: int): string {
    id + "|" + ItoaSigned(n)
  }

  predicate Taken(rows: map<string, map<int, StoredRow>>, id: string, n: int) {
    RowKey(id, n) in rows && n in rows[RowKey(id, n)]
  }

  lemma RowKeySeparates(id: string, id': string, n: int)
    requires RowKey(id, n) == RowKey(id', n)
    ensures id == id'
  {
    assert |id| == |id'|;
    assert id == RowKey(id, n)[..|id|] && id' == RowKey(id', n)[..|id|];
  }

  class MemoryStore {
    var rows: map<string, map<int, StoredRow>>
    var byFile: Tables
    var batches: seq<StoredBatch>
    var total: nat
    var skipped: nat
    var batchWrites: nat
    const failAfter: int

    ghost predicate Valid()
      reads this
    {
      && (forall id, n {:trigger Taken(rows, id, n)} :: Taken(rows, id, n) <==> HasNumber(RowsOf(byFile, id), n))
      && (forall id {:trigger RowsOf(byFile, id)} :: DistinctNumbers(RowsOf(byFile, id)))
      && |batches| == batchWrites
    }

    constructor (failAfter: int)
      ensures Valid() && byFile == map[] && batches == [] && total == 0 && skipped == 0 && this.failAfter == failAfter
    {
      rows, byFile, batches, total, skipped, batchWrites := map[], map[], [], 0, 0, 0;
      this.failAfter := failAfter;
    }

    /** All of the batch or nothing; every record is counted as stored or as skipped. `refused`: what the write hook says. */
    method Write(cancelled: bool, refused: bool, batch: Batch) returns (ok: bool)
      requires Valid()
      modifies this
      ensures Valid()
      ensures ok ==> byFile == StoreBatch(old(byFile), batch)
      ensures ok ==> batches == old(batches) + [StoredBatch(batch.key, batch.file, batch.sequence, batch.header, |batch.records|)]
      ensures ok ==> total + skipped == old(total + skipped) + |batch.records|
      ensures ok ==> total == old(total) + |RowsOf(byFile, Identity(batch.file))| - old(|RowsOf(byFile, Identity(batch.file))|)
      ensures !ok ==> unchanged(this)
      ensures ok <==> !cancelled && !refused && !(0 < failAfter <= old(batchWrites))
    {
      if cancelled {
        return false;
      }
      if refused || (failAfter > 0 && batchWrites >= failAfter) {
        return false;
      }
      ghost var id, was := Identity(batch.file), byFile;
      for i := 0 to |batch.records|
        invariant Valid() && batches == old(batches) && batchWrites == old(batchWrites)
        invariant byFile == FirstStored(was, batch, i)
        invariant total + skipped == old(total + skipped) + i
        invariant total == old(total) + |RowsOf(byFile, id)| - |RowsOf(was, id)|
      {
        Offer(batch, i);
      }
      batches := batches + [StoredBatch(batch.key, batch.file, batch.sequence, batch.header, |batch.records|)];
      batchWrites := batchWrites + 1;
      return true;
    }

    // Stores one record of a batch, unless its number is taken.
    method Offer(batch: Batch, i: nat)
      requires Valid() && i < |batch.records|
      modifies `rows, `byFile, `total, `skipped
      ensures Valid()
      ensures forall was :: old(byFile) == FirstStored(was, batch, i) ==> byFile == FirstStored(was, batch, i + 1)
      ensures total + skipped == old(total + skipped) + 1
      ensures total == old(total) + |RowsOf(byFile, Identity(batch.file))| - old(|RowsOf(byFile, Identity(batch.file))|)
    {
      var id, rec := Identity(batch.file), batch.records[i];
      ghost var before := RowsOf(byFile, id);
      assert Taken(rows, id, rec.rowNumber) <==> HasNumber(before, rec.rowNumber);
      var key := RowKey(id, rec.rowNumber);
      if key !in rows {
        MakeRoom(key);
      }
      if rec.rowNumber in rows[key] {
        skipped := skipped + 1;
        assert id in byFile && byFile == byFile[id := before];
      } else {
        Append(id, StoredRow(batch.key, batch.file, rec, batch.header));
      }
      forall was | old(byFile) == FirstStored(was, batch, i) ensures byFile == FirstStored(was, batch, i + 1) {
        assert before == Stored(RowsOf(was, id), batch, i);
        assert FirstStored(was, batch, i + 1) == old(byFile)[id := Stored(RowsOf(was, id), batch, i + 1)];
      }
    }

    method MakeRoom(key: string)
      requires Valid() && key !in rows
      modifies `rows
      ensures Valid() && rows == old(rows)[key := map[]]
    {
      rows := rows[key := map[]];
      assert forall id, n :: Taken(rows, id, n) <==> Taken(old(rows), id, n);
    }

    method Append(id: string, row: StoredRow)
      requires Valid() && RowKey(id, row.record.rowNumber) in rows && !Taken(rows, id, row.record.rowNumber)
      modifies `rows, `byFile, `total
      ensures Valid() && byFile == old(byFile)[id := RowsOf(old(byFile), id) + [row]] && total == old(total) + 1
    {
      var n := row.record.rowNumber;
      var key := RowKey(id, n);
      rows := rows[key := rows[key][n := row]];
      byFile := byFile[id := (if id in byFile then byFile[id] else []) + [row]];
      total := total + 1;
      forall id', n' ensures Taken(rows, id', n') <==> HasNumber(RowsOf(byFile, id'), n') {
        AppendTakes(old(rows), id, row, id', n');
        AppendHas(RowsOf(old(byFile), id), row, n');
        assert Taken(old(rows), id', n') <==> HasNumber(RowsOf(old(byFile), id'), n');
      }
      forall id' ensures DistinctNumbers(RowsOf(byFile, id')) {
        assert DistinctNumbers(RowsOf(old(byFile), id'));
        if id' == id {
          var was := RowsOf(old(byFile), id);
          assert !HasNumber(was, n);
          assert forall i :: 0 <= i < |was| ==> was[i].record.rowNumber != n;
        }
      }
    }

    method RowsForFile(file: FileIdentity) returns (r: seq<StoredRow>)
      ensures r == RowsOf(byFile, Identity(file))
    {
      r := if Identity(file) in byFile then byFile[Identity(file)] else [];
    }
  }

  lemma AppendTakes(rows: map<string, map<int, StoredRow>>, id: string, row: StoredRow, id': string, n': int)
    requires RowKey(id, row.record.rowNumber) in rows
    ensures var n := row.record.rowNumber;
            var after := rows[RowKey(id, n) := rows[RowKey(id, n)][n := row]];
            Taken(after, id', n') <==> Taken(rows, id', n') || (id' == id && n' == n)
  {
    if RowKey(id', n') == RowKey(id, row.record.rowNumber) && n' == row.record.rowNumber {
      RowKeySeparates(id, id', n');
    }
  }

  lemma AppendHas(rows: seq<StoredRow>, row: StoredRow, n: int)
    ensures HasNumber(rows + [row], n) <==> HasNumber(rows, n) || n == row.record.rowNumber
  {
    if HasNumber(rows, n) {
      var i :| 0 <= i < |rows| && rows[i].record.rowNumber == n;
      assert (rows + [row])[i].record.rowNumber == n;
    } else if n == row.record.rowNumber {
      assert (rows + [row])[|rows|].record.rowNumber == n;
    }
  }
}
