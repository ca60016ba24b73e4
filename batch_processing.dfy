/** The batching generator of the user-data streaming exercise and the
    consumer that picks out the users older than 25. The database cursor
    is the sequence of rows it yields; each `yield` appends to the
    sequence of batches, and each `print` to the sequence of printed rows. */
module BatchProcessing {
  import opened Collections

  /** A row of the `user_data` table, as the dictionary cursor returns it. */
  datatype UserRow = UserRow(userId: string, name: string, email: string, age: real)

  /** `stream_users_in_batches`: the rows in order, cut into batches of
      `batchSize`, the last batch holding what is left over. The length
      test is an equality, so a `batchSize` of zero or less never cuts and
      every row comes out in one final batch. */
  method StreamUsersInBatches(rows: seq<UserRow>, batchSize: int) returns (batches: seq<seq<UserRow>>)
    ensures Flatten(batches) == rows
    ensures forall i :: 0 <= i < |batches| ==> batches[i] != []
    ensures batchSize > 0 ==> forall i :: 0 <= i < |batches| ==> |batches[i]| <= batchSize
    ensures batchSize > 0 ==> forall i :: 0 <= i < |batches| - 1 ==> |batches[i]| == batchSize
    ensures batchSize <= 0 ==> batches == if rows == [] then [] else [rows]
    ensures rows == [] ==> batches == []
  {
    batches := [];
    var batch: seq<UserRow> := [];
    for n := 0 to |rows|
      invariant Flatten(batches) + batch == rows[..n]
      invariant forall i :: 0 <= i < |batches| ==> batches[i] != []
      invariant batchSize > 0 ==> forall i :: 0 <= i < |batches| ==> |batches[i]| == batchSize
      invariant batchSize > 0 ==> |batch| < batchSize
      invariant batchSize <= 0 ==> batches == [] && batch == rows[..n]
    {
      assert rows[..n + 1] == rows[..n] + [rows[n]];
      batch := batch + [rows[n]];
      if |batch| == batchSize {
        FlattenAppend(batches, batch);
        batches := batches + [batch];
        batch := [];
      }
    }
    assert rows[..|rows|] == rows;
    if batch != [] {
      FlattenAppend(batches, batch);
      batches := batches + [batch];
    }
  }

  predicate OlderThan25(row: UserRow) {
    row.age > 25.0
  }

  /** The inner loop of `batch_processing`: the rows of one batch older
      than 25, in order. */
  method OlderRowsOfBatch(batch: seq<UserRow>) returns (printed: seq<UserRow>)
    ensures printed == Filter(batch, OlderThan25)
  {
    printed := [];
    for j := 0 to |batch|
      invariant printed == Filter(batch[..j], OlderThan25)
    {
      FilterPrefixStep(batch, j, OlderThan25);
      if batch[j].age > 25.0 {
        printed := printed + [batch[j]];
      }
    }
    assert batch[..|batch|] == batch;
  }

  /** `batch_processing`: every row older than 25, in the order the batches
      deliver them. */
  method ProcessBatches(rows: seq<UserRow>, batchSize: int) returns (printed: seq<UserRow>)
    ensures printed == Filter(rows, OlderThan25)
  {
    var batches := StreamUsersInBatches(rows, batchSize);
    printed := [];
    for b := 0 to |batches|
      invariant printed == Filter(Flatten(batches[..b]), OlderThan25)
    {
      var older := OlderRowsOfBatch(batches[b]);
      printed := printed + older;
      FilterFlattenPrefixStep(batches, b, OlderThan25);
    }
    assert batches[..|batches|] == batches;
  }
}
