/**
 The migration loop (`load_sqlite_to_mongodb`): every stored row is parsed,
 transformed and appended to a pending batch; the batch is sent to the
 destination once it holds `batchSize` documents, and whatever is left is
 sent after the last row. The JSON parser, the destination's `insert_many`
 and the clock are oracles carried in a `Migration` value. Connecting,
 logging and closing are not modelled.
 */
module Loader {
  import opened Values
  import opened Transform
  import opened RecordStore

  /** What one `insert_many` call does: returns the inserted ids, raises a
      `BulkWriteError` (with its `writeErrors` list and `nInserted` count),
      or raises anything else. */
  datatype InsertOutcome =
    | Inserted(insertedIds: nat)
    | BulkError(writeErrors: nat, nInserted: nat)
    | OtherError

  /** How a `BulkWriteError` is counted: as the source does, or by the
      destination's own inserted count (see `BulkCounts`). */
  datatype Accounting = AsWritten | ByInsertedCount

  datatype Migration = Migration(
    batchSize: int,
    parse: string -> Option<Json>,
    insert: (nat, seq<Document>) -> InsertOutcome,
    clock: nat -> Stamp,
    accounting: Accounting)

  /** The loop's variables: the pending `documents`, the two counters, and
      (for the proofs) the batches handed to `insert_many` so far. */
  datatype LoadState = LoadState(
    pending: seq<Document>,
    processed: int,
    failed: int,
    attempts: seq<seq<Document>>)

  /** The end of a run: nothing to load, a logged summary, or an exception
      escaping from the final insert. */
  datatype LoadResult =
    | NoRows
    | Completed(processed: int, failed: int, attempts: seq<seq<Document>>)
    | Raised(processed: int, failed: int, attempts: seq<seq<Document>>)

  const Start := LoadState([], 0, 0, [])

  /** Parse and transform one stored row; `None` when either raises. A
      prepared document comes from the row's own URL and has the reserved
      fields at their neutral values. */
  function Prepare(row: Row, index: nat, m: Migration): (d: Option<Document>)
    ensures d.Some? <==>
              && m.parse(row.enrichedData).Some?
              && TransformRecord(m.parse(row.enrichedData).value, row.url, m.clock(index)).Ok?
    ensures d.Some? ==> d.value.dataSource == row.url && ReservedFieldsNeutral(d.value)
    ensures d.Some? ==> d.value == TransformRecord(m.parse(row.enrichedData).value, row.url, m.clock(index)).value
  {
    match m.parse(row.enrichedData)
    case None => None
    case Some(v) =>
      match TransformRecord(v, row.url, m.clock(index))
      case Err(_) => None
      case Ok(doc) => Some(doc)
  }

  /** The counters after a `BulkWriteError` on a batch of `size` documents.
      As written, `failed` grows by the number of documents that did NOT
      raise a write error and `processed` is unchanged; counted by the
      destination's inserted count, the inserted documents are processed
      and the rest failed. */
  function BulkCounts(acct: Accounting, processed: int, failed: int, size: nat, writeErrors: nat, nInserted: nat): (c: (int, int))
    ensures acct == AsWritten ==> c.0 == processed && c.0 + c.1 == processed + failed + size - writeErrors
    ensures acct == ByInsertedCount ==> c.0 + c.1 == processed + failed + size
    ensures acct == ByInsertedCount ==> c.0 == processed + nInserted
  {
    match acct
    case AsWritten => (processed, failed + size - writeErrors)
    case ByInsertedCount => (processed + nInserted, failed + size - nInserted)
  }

  /** One iteration of the `for` loop: at most one batch is sent, and it is
      the pending list with this row's document appended; the pending list
      then either empties, keeps that batch, or is unchanged for a rejected
      row; `processed` never decreases. */
  function Step(st: LoadState, row: Row, index: nat, m: Migration): (r: LoadState)
    ensures r.attempts == st.attempts ||
            (Prepare(row, index, m).Some? &&
             r.attempts == st.attempts + [st.pending + [Prepare(row, index, m).value]])
    ensures r.pending == [] || r.pending == st.pending + Emitted(row, index, m)
    ensures r.processed >= st.processed
  {
    match Prepare(row, index, m)
    case None => st.(failed := st.failed + 1)
    case Some(doc) =>
      var docs := st.pending + [doc];
      if |docs| >= m.batchSize then
        var attempts := st.attempts + [docs];
        match m.insert(|st.attempts|, docs)
        case Inserted(n) => LoadState([], st.processed + n, st.failed, attempts)
        case BulkError(e, n) =>
          var c := BulkCounts(m.accounting, st.processed, st.failed, |docs|, e, n);
          LoadState([], c.0, c.1, attempts)
        case OtherError => LoadState(docs, st.processed, st.failed + 1, attempts)
      else st.(pending := docs)
  }

  /** The loop state after the given rows, in order. */
  function Fold(rows: seq<Row>, m: Migration): LoadState {
    if rows == [] then Start
    else Step(Fold(rows[..|rows| - 1], m), rows[|rows| - 1], |rows| - 1, m)
  }

  /** The whole migration of the stored rows. */
  function Load(rows: seq<Row>, m: Migration): (r: LoadResult)
    ensures r.NoRows? <==> rows == []
    ensures r.Completed? && Fold(rows, m).pending == [] ==> r.attempts == Fold(rows, m).attempts
    ensures rows != [] && Fold(rows, m).pending == [] ==>
              r == Completed(Fold(rows, m).processed, Fold(rows, m).failed, Fold(rows, m).attempts)
    ensures !r.NoRows? ==> |r.attempts| - |Fold(rows, m).attempts| <= 1
  {
    if |rows| == 0 then NoRows
    else
      var st := Fold(rows, m);
      if st.pending == [] then Completed(st.processed, st.failed, st.attempts)
      else
        var attempts := st.attempts + [st.pending];
        match m.insert(|st.attempts|, st.pending)
        case Inserted(n) => Completed(st.processed + n, st.failed, attempts)
        case BulkError(e, n) =>
          var c := BulkCounts(m.accounting, st.processed, st.failed, |st.pending|, e, n);
          Completed(c.0, c.1, attempts)
        case OtherError => Raised(st.processed, st.failed, attempts)
  }

  /** A row whose JSON does not parse or whose transform raises adds exactly
      one to `failed` and touches nothing else. */
  lemma RejectedRowCountsOnce(st: LoadState, row: Row, index: nat, m: Migration)
    requires Prepare(row, index, m).None?
    ensures Step(st, row, index, m).failed == st.failed + 1
    ensures Step(st, row, index, m).pending == st.pending
    ensures Step(st, row, index, m).processed == st.processed
    ensures Step(st, row, index, m).attempts == st.attempts
  {
  }

  /** A document that does not fill the batch is only appended. */
  lemma ShortBatchWaits(st: LoadState, row: Row, index: nat, m: Migration)
    requires Prepare(row, index, m).Some?
    requires |st.pending| + 1 < m.batchSize
    ensures Step(st, row, index, m) == st.(pending := st.pending + [Prepare(row, index, m).value])
  {
  }

  /** A `BulkWriteError` clears the batch; as written `processed` stays and
      `failed` grows by the batch size less the write errors. */
  lemma BulkErrorClearsBatch(st: LoadState, row: Row, index: nat, m: Migration)
    requires Prepare(row, index, m).Some?
    requires |st.pending| + 1 >= m.batchSize
    requires m.insert(|st.attempts|, st.pending + [Prepare(row, index, m).value]).BulkError?
    requires m.accounting == AsWritten
    ensures var r := Step(st, row, index, m);
            var e := m.insert(|st.attempts|, st.pending + [Prepare(row, index, m).value]).writeErrors;
            && r.pending == []
            && r.processed == st.processed
            && r.failed == st.failed + |st.pending| + 1 - e
            && r.attempts == st.attempts + [st.pending + [Prepare(row, index, m).value]]
  {
  }

  /** Any other exception from a mid-run insert counts the current row as
      failed and keeps the whole batch, which the next insert sends again. */
  lemma OtherErrorKeepsBatch(st: LoadState, row: Row, index: nat, m: Migration)
    requires Prepare(row, index, m).Some?
    requires |st.pending| + 1 >= m.batchSize
    requires m.insert(|st.attempts|, st.pending + [Prepare(row, index, m).value]).OtherError?
    ensures var r := Step(st, row, index, m);
            && r.pending == st.pending + [Prepare(row, index, m).value]
            && r.processed == st.processed
            && r.failed == st.failed + 1
            && r.attempts == st.attempts + [r.pending]
  {
  }

  /** Any other exception from the final insert escapes the function: no
      summary is produced. */
  lemma FinalOtherErrorRaises(rows: seq<Row>, m: Migration)
    requires rows != [] && Fold(rows, m).pending != []
    requires m.insert(|Fold(rows, m).attempts|, Fold(rows, m).pending).OtherError?
    ensures Load(rows, m).Raised?
    ensures Load(rows, m).attempts == Fold(rows, m).attempts + [Fold(rows, m).pending]
  {
  }

  /** The document one row contributes: none when it is rejected. */
  function Emitted(row: Row, index: nat, m: Migration): (docs: seq<Document>)
    ensures |docs| <= 1
  {
    match Prepare(row, index, m)
    case None => []
    case Some(d) => [d]
  }

  /** The documents of the rows that parse and transform, in row order. */
  function Prepared(rows: seq<Row>, m: Migration): (docs: seq<Document>)
    ensures |docs| <= |rows|
  {
    if rows == [] then []
    else Prepared(rows[..|rows| - 1], m) + Emitted(rows[|rows| - 1], |rows| - 1, m)
  }

  function Flatten(batches: seq<seq<Document>>): seq<Document> {
    if batches == [] then []
    else Flatten(batches[..|batches| - 1]) + batches[|batches| - 1]
  }

  /** The destination accepts every batch and reports one id per document. */
  ghost predicate AcceptsAll(m: Migration) {
    forall i: nat, b: seq<Document> :: m.insert(i, b) == Inserted(|b|)
  }

  /** The loop invariant when no insert raises, after `seen` rows that
      prepared `docs`: the batches sent so far followed by the pending list
      are exactly `docs`; every batch sent is full and the pending list is not. */
  ghost predicate BatchInvariant(st: LoadState, docs: seq<Document>, seen: nat, m: Migration) {
    && Flatten(st.attempts) + st.pending == docs
    && (forall i :: 0 <= i < |st.attempts| ==> |st.attempts[i]| == m.batchSize)
    && |st.pending| < m.batchSize
    && st.processed == |Flatten(st.attempts)|
    && st.failed == seen - |docs|
  }

  lemma StepKeepsBatchInvariant(st: LoadState, docs: seq<Document>, row: Row, index: nat, m: Migration)
    requires m.batchSize >= 1 && AcceptsAll(m)
    requires BatchInvariant(st, docs, index, m)
    ensures BatchInvariant(Step(st, row, index, m), docs + Emitted(row, index, m), index + 1, m)
  {
    match Prepare(row, index, m)
    case None =>
      assert docs + Emitted(row, index, m) == docs;
    case Some(doc) =>
      var pending := st.pending + [doc];
      if |pending| >= m.batchSize {
        assert m.insert(|st.attempts|, pending) == Inserted(|pending|);
        var attempts := st.attempts + [pending];
        assert attempts[..|attempts| - 1] == st.attempts;
        assert Flatten(attempts) == Flatten(st.attempts) + pending;
      }
  }

  /** The invariant holds after any prefix of the rows. */
  lemma {:induction false} FoldWithoutErrors(rows: seq<Row>, m: Migration)
    requires m.batchSize >= 1 && AcceptsAll(m)
    ensures BatchInvariant(Fold(rows, m), Prepared(rows, m), |rows|, m)
  {
    if rows != [] {
      var init := rows[..|rows| - 1];
      var last := rows[|rows| - 1];
      FoldWithoutErrors(init, m);
      StepKeepsBatchInvariant(Fold(init, m), Prepared(init, m), last, |rows| - 1, m);
      assert Fold(rows, m) == Step(Fold(init, m), last, |rows| - 1, m);
      assert Prepared(rows, m) == Prepared(init, m) + Emitted(last, |rows| - 1, m);
    }
  }

  /** When no insert raises, every prepared document is inserted exactly
      once and in order, mid-run batches are full, the trailing batch is
      non-empty and short, `processed` counts the rows that parsed and
      transformed, and `failed` the rest. */
  lemma LoadWithoutErrors(rows: seq<Row>, m: Migration)
    requires rows != []
    requires m.batchSize >= 1 && AcceptsAll(m)
    ensures var r := Load(rows, m);
            && r.Completed?
            && Flatten(r.attempts) == Prepared(rows, m)
            && r.processed == |Prepared(rows, m)|
            && r.failed == |rows| - |Prepared(rows, m)|
            && (forall i :: 0 <= i < |Fold(rows, m).attempts| ==> |r.attempts[i]| == m.batchSize)
            && (|r.attempts| > |Fold(rows, m).attempts| ==> 0 < |r.attempts[|r.attempts| - 1]| < m.batchSize)
  {
    FoldWithoutErrors(rows, m);
    var st := Fold(rows, m);
    if st.pending != [] {
      assert m.insert(|st.attempts|, st.pending) == Inserted(|st.pending|);
      var attempts := st.attempts + [st.pending];
      assert attempts[..|attempts| - 1] == st.attempts;
    }
  }

  /** Any full batch already sent accounts for at least a batch of documents. */
  lemma FullBatchesFlatten(batches: seq<seq<Document>>, size: int)
    requires forall i :: 0 <= i < |batches| ==> |batches[i]| == size
    ensures batches != [] ==> |Flatten(batches)| >= size
  {
    if batches != [] {
      assert |batches[|batches| - 1]| == size;
    }
  }

  /** A store whose prepared documents are fewer than the batch size is sent
      in a single insert after the loop, holding every prepared document. */
  lemma ShortStoreOneInsert(rows: seq<Row>, m: Migration)
    requires rows != []
    requires m.batchSize >= 1 && AcceptsAll(m)
    requires 0 < |Prepared(rows, m)| < m.batchSize
    ensures Load(rows, m) == Completed(|Prepared(rows, m)|, |rows| - |Prepared(rows, m)|, [Prepared(rows, m)])
  {
    FoldWithoutErrors(rows, m);
    var st := Fold(rows, m);
    FullBatchesFlatten(st.attempts, m.batchSize);
    assert st.attempts == [];
    assert st.pending == Prepared(rows, m);
    assert m.insert(0, st.pending) == Inserted(|st.pending|);
    FinalInsertCompletes(rows, m);
    assert st.attempts + [st.pending] == [Prepared(rows, m)];
  }

  /** A final insert that succeeds completes the run with the batch added
      and the reported inserted ids counted as processed. */
  lemma FinalInsertCompletes(rows: seq<Row>, m: Migration)
    requires rows != [] && Fold(rows, m).pending != []
    requires m.insert(|Fold(rows, m).attempts|, Fold(rows, m).pending).Inserted?
    ensures var st := Fold(rows, m);
            Load(rows, m) == Completed(st.processed + m.insert(|st.attempts|, st.pending).insertedIds,
                                       st.failed, st.attempts + [st.pending])
  {
  }

  /** A `BulkWriteError` from the final insert still completes the run. As
      written, `processed` stays and `failed` grows by the batch size less
      the write errors; counted by the inserted count, the inserted
      documents are processed and the rest failed. */
  lemma FinalBulkErrorCompletes(rows: seq<Row>, m: Migration)
    requires rows != [] && Fold(rows, m).pending != []
    requires m.insert(|Fold(rows, m).attempts|, Fold(rows, m).pending).BulkError?
    ensures var st := Fold(rows, m);
            var o := m.insert(|st.attempts|, st.pending);
            m.accounting == AsWritten ==>
              Load(rows, m) == Completed(st.processed, st.failed + |st.pending| - o.writeErrors,
                                         st.attempts + [st.pending])
    ensures var st := Fold(rows, m);
            var o := m.insert(|st.attempts|, st.pending);
            m.accounting == ByInsertedCount ==>
              Load(rows, m) == Completed(st.processed + o.nInserted, st.failed + |st.pending| - o.nInserted,
                                         st.attempts + [st.pending])
  {
  }

  /** The destination never raises anything but a `BulkWriteError`, reports
      one id per document on success, and never claims more inserts than
      documents. */
  ghost predicate OnlyBulkErrors(m: Migration) {
    forall i: nat, b: seq<Document> ::
      match m.insert(i, b)
      case Inserted(n) => n == |b|
      case BulkError(e, n) => n <= |b|
      case OtherError => false
  }

  /** Counting by the inserted count, each row ends up counted exactly once:
      the counters and the pending list always add up to the rows seen. */
  lemma {:induction false} CountsConserved(rows: seq<Row>, m: Migration)
    requires m.accounting == ByInsertedCount && OnlyBulkErrors(m)
    ensures var st := Fold(rows, m);
            st.processed + st.failed + |st.pending| == |rows|
  {
    if rows != [] {
      var init := rows[..|rows| - 1];
      CountsConserved(init, m);
      var st := Fold(init, m);
      match Prepare(rows[|rows| - 1], |rows| - 1, m)
      case None =>
      case Some(doc) =>
        var docs := st.pending + [doc];
        if |docs| >= m.batchSize {
          var o := m.insert(|st.attempts|, docs);
          assert !o.OtherError?;
        }
    }
  }

  /** Counting by the inserted count, a run's summary accounts for every row:
      processed plus failed is the number of stored rows. */
  lemma LoadCountsEveryRow(rows: seq<Row>, m: Migration)
    requires rows != []
    requires m.accounting == ByInsertedCount && OnlyBulkErrors(m)
    ensures Load(rows, m).Completed?
    ensures Load(rows, m).processed + Load(rows, m).failed == |rows|
  {
    CountsConserved(rows, m);
    var st := Fold(rows, m);
    if st.pending != [] {
      var o := m.insert(|st.attempts|, st.pending);
      assert !o.OtherError?;
    }
  }

  /** As written, a bulk error on a batch of five where the destination
      inserts four documents and rejects one reports nothing processed and
      four failed; counted by the inserted count it is four processed and
      one failed. */
  lemma BulkErrorMiscount()
    ensures BulkCounts(AsWritten, 0, 0, 5, 1, 4) == (0, 4)
    ensures BulkCounts(ByInsertedCount, 0, 0, 5, 1, 4) == (4, 1)
  {
  }

  /** As written, every write error drops a document from the totals:
      processed plus failed grows by less than the batch size. */
  lemma AsWrittenLosesWriteErrors(processed: int, failed: int, size: nat, writeErrors: nat, nInserted: nat)
    requires writeErrors >= 1
    ensures var c := BulkCounts(AsWritten, processed, failed, size, writeErrors, nInserted);
            c.0 + c.1 < processed + failed + size
  {
  }
}
