/** CSV award: one promotional credit per row, failures collected with their row number. */
module Awarding {
  import opened Ledger

  datatype Row = Row(creator: string, points: int, reason: string)

  datatype RowError = RowError(row: nat, error: LedgerError)

  datatype UploadResult = UploadResult(successCount: nat, failedCount: nat, errors: seq<RowError>)

  function SourceOf(merchant: string): string { "MERCHANT_AWARD_" + merchant }

  /** The row can succeed: positive points, and no address in its reason or the source. */
  predicate Creditable(row: Row, source: string) { row.points > 0 && !TellsAddress(source, row.reason) }

  /** The points of a creator's rows that can succeed. */
  function Awarded(rows: seq<Row>, source: string, creator: string): int {
    if rows == [] then 0
    else
      var row := rows[|rows| - 1];
      Awarded(rows[..|rows| - 1], source, creator)
      + if row.creator == creator && Creditable(row, source) then row.points else 0
  }

  ghost predicate Increasing(errors: seq<RowError>) {
    forall i, j :: 0 <= i < j < |errors| ==> errors[i].row < errors[j].row
  }

  /** The error names, by its 1-based number, a row that cannot succeed, and says why. */
  predicate Refusal(rows: seq<Row>, source: string, e: RowError) {
    && 1 <= e.row <= |rows| && !Creditable(rows[e.row - 1], source)
    && e.error == if rows[e.row - 1].points <= 0 then NotPositive else PersonalData
  }

  ghost predicate OnlyRefused(rows: seq<Row>, source: string, errors: seq<RowError>) {
    forall j :: 0 <= j < |errors| ==> Refusal(rows, source, errors[j])
  }

  predicate Reported(errors: seq<RowError>, row: nat) { exists j :: 0 <= j < |errors| && errors[j].row == row }

  /** Every such row is reported. */
  ghost predicate AllRefused(rows: seq<Row>, source: string, errors: seq<RowError>) {
    forall i :: 0 <= i < |rows| && !Creditable(rows[i], source) ==> Reported(errors, i + 1)
  }

  /** A credit with an unused key raises its account's balance and no other. */
  lemma CreditRaises(es: seq<Entry>, account: string, amount: int, source: string, reason: string, key: string, now: int,
                     other: string)
    requires amount > 0 && !TellsAddress(source, reason) && !KeyUsed(es, key)
    ensures AvailableNow(CreditSpec(es, account, amount, source, reason, key, now).1, other)
            == AvailableNow(es, other) + if account == other then amount else 0
  {
    var es' := CreditSpec(es, account, amount, source, reason, key, now).1;
    assert es'[..|es'| - 1] == es;
  }

  function Counted(r: UploadResult, outcome: Outcome<bool>, row: nat): UploadResult {
    match outcome
    case Ok(_) => r.(successCount := r.successCount + 1)
    case Err(error) => r.(failedCount := r.failedCount + 1, errors := r.errors + [RowError(row, error)])
  }

  /** The ledger and the result after a prefix of the rows. `keys` are the generated
      idempotency keys and `clock` the time at each row. */
  function RunRows(es: seq<Entry>, rows: seq<Row>, source: string, keys: seq<string>, clock: seq<int>)
    : (seq<Entry>, UploadResult)
    requires |keys| == |rows| == |clock|
  {
    if rows == [] then (es, UploadResult(0, 0, []))
    else
      var n := |rows| - 1;
      var (before, r) := RunRows(es, rows[..n], source, keys[..n], clock[..n]);
      var (outcome, after) := CreditSpec(before, rows[n].creator, rows[n].points, source, rows[n].reason, keys[n], clock[n]);
      (after, Counted(r, outcome, n + 1))
  }

  ghost predicate UnusedKeys(es: seq<Entry>, keys: seq<string>) {
    forall i :: 0 <= i < |keys| ==> !KeyUsed(es, keys[i])
  }

  ghost predicate Distinct(keys: seq<string>) { forall i, j :: 0 <= i < j < |keys| ==> keys[i] != keys[j] }

  /** Keys that are generated for later rows are still unused. */
  lemma {:induction false} LaterKeyUnused(es: seq<Entry>, rows: seq<Row>, source: string, keys: seq<string>, clock: seq<int>,
                                         key: string)
    requires |keys| == |rows| == |clock| && !KeyUsed(es, key) && key !in keys
    ensures !KeyUsed(RunRows(es, rows, source, keys, clock).0, key)
  {
    if rows != [] {
      var n := |rows| - 1;
      LaterKeyUnused(es, rows[..n], source, keys[..n], clock[..n], key);
    }
  }

  /** A batch raises each creator's balance by exactly the sum of the creator's
      successful rows. */
  lemma {:induction false} UploadRaises(es: seq<Entry>, rows: seq<Row>, source: string, keys: seq<string>, clock: seq<int>,
                                       creator: string)
    requires |keys| == |rows| == |clock| && UnusedKeys(es, keys) && Distinct(keys)
    ensures AvailableNow(RunRows(es, rows, source, keys, clock).0, creator)
            == AvailableNow(es, creator) + Awarded(rows, source, creator)
  {
    if rows != [] {
      var n := |rows| - 1;
      UploadRaises(es, rows[..n], source, keys[..n], clock[..n], creator);
      LaterKeyUnused(es, rows[..n], source, keys[..n], clock[..n], keys[n]);
      if Creditable(rows[n], source) {
        CreditRaises(RunRows(es, rows[..n], source, keys[..n], clock[..n]).0,
                     rows[n].creator, rows[n].points, source, rows[n].reason, keys[n], clock[n], creator);
      }
    }
  }

  /** Every row is counted once, and the error rows are refused rows, in order. */
  lemma {:induction false} UploadCounts(es: seq<Entry>, rows: seq<Row>, source: string, keys: seq<string>, clock: seq<int>)
    requires |keys| == |rows| == |clock|
    ensures var r := RunRows(es, rows, source, keys, clock).1;
            && r.successCount + r.failedCount == |rows| && r.failedCount == |r.errors|
            && Increasing(r.errors) && OnlyRefused(rows, source, r.errors)
  {
    if rows != [] {
      var n := |rows| - 1;
      UploadCounts(es, rows[..n], source, keys[..n], clock[..n]);
      assert OnlyRefused(rows[..n], source, RunRows(es, rows[..n], source, keys[..n], clock[..n]).1.errors);
    }
  }

  /** No refused row goes unreported. */
  lemma {:induction false} UploadReports(es: seq<Entry>, rows: seq<Row>, source: string, keys: seq<string>, clock: seq<int>)
    requires |keys| == |rows| == |clock|
    ensures AllRefused(rows, source, RunRows(es, rows, source, keys, clock).1.errors)
  {
    if rows != [] {
      var n := |rows| - 1;
      UploadReports(es, rows[..n], source, keys[..n], clock[..n]);
      var errors0 := RunRows(es, rows[..n], source, keys[..n], clock[..n]).1.errors;
      var errors := RunRows(es, rows, source, keys, clock).1.errors;
      forall i | 0 <= i < |rows| && !Creditable(rows[i], source) ensures Reported(errors, i + 1) {
        if i < n {
          assert rows[..n][i] == rows[i];
          var j :| 0 <= j < |errors0| && errors0[j].row == i + 1;
          assert errors[j] == errors0[j];
        } else {
          assert errors[|errors| - 1].row == i + 1;
        }
      }
    }
  }

  function RunPrefix(es: seq<Entry>, rows: seq<Row>, source: string, keys: seq<string>, clock: seq<int>, i: nat)
    : (seq<Entry>, UploadResult)
    requires |keys| == |rows| == |clock| && i <= |rows|
  {
    RunRows(es, rows[..i], source, keys[..i], clock[..i])
  }

  lemma RunPrefixStep(es: seq<Entry>, rows: seq<Row>, source: string, keys: seq<string>, clock: seq<int>, i: nat)
    requires |keys| == |rows| == |clock| && i < |rows|
    ensures var (before, r) := RunPrefix(es, rows, source, keys, clock, i);
            var row := rows[i];
            var (outcome, after) := CreditSpec(before, row.creator, row.points, source, row.reason, keys[i], clock[i]);
            RunPrefix(es, rows, source, keys, clock, i + 1) == (after, Counted(r, outcome, i + 1))
  {
    assert rows[..i + 1][..i] == rows[..i] && keys[..i + 1][..i] == keys[..i] && clock[..i + 1][..i] == clock[..i];
  }

  method UploadCSV(ledger: LedgerService, rows: seq<Row>, merchant: string, keys: seq<string>, clock: seq<int>)
    returns (result: UploadResult)
    requires ledger.Valid() && |keys| == |rows| == |clock|
    requires forall i, j :: 0 <= i < j < |clock| ==> clock[i] <= clock[j]
    requires forall i :: 0 <= i < |clock| ==> ledger.Since(clock[i])
    modifies ledger
    ensures ledger.Valid()
    ensures (ledger.entries, result) == RunRows(old(ledger.entries), rows, SourceOf(merchant), keys, clock)
    ensures result.successCount + result.failedCount == |rows| && result.failedCount == |result.errors|
    ensures Increasing(result.errors) && OnlyRefused(rows, SourceOf(merchant), result.errors)
    ensures AllRefused(rows, SourceOf(merchant), result.errors)
  {
    var source := SourceOf(merchant);
    var successCount, failedCount, errors := 0, 0, [];
    for i := 0 to |rows|
      invariant ledger.Valid() && (forall k :: i <= k < |rows| ==> ledger.Since(clock[k]))
      invariant (ledger.entries, UploadResult(successCount, failedCount, errors))
                == RunPrefix(old(ledger.entries), rows, source, keys, clock, i)
    {
      RunPrefixStep(old(ledger.entries), rows, source, keys, clock, i);
      var r := ledger.CreditPoints(rows[i].creator, rows[i].points, source, rows[i].reason, keys[i], clock[i]);
      if r.Ok? {
        successCount := successCount + 1;
      } else {
        failedCount := failedCount + 1;
        errors := errors + [RowError(i + 1, r.error)];
      }
    }
    assert rows[..|rows|] == rows && keys[..|rows|] == keys && clock[..|rows|] == clock;
    result := UploadResult(successCount, failedCount, errors);
    UploadCounts(old(ledger.entries), rows, source, keys, clock);
    UploadReports(old(ledger.entries), rows, source, keys, clock);
  }
}
