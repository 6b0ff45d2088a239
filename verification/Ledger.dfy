/** The append-only ledger: deduplicated entries, last-write-wins snapshots, the
    reconciliation report, and the ledger-only credit and deduct path. */
module Ledger {
  import opened Accounts
  import opened Metadata
  import opened Options

  datatype Kind = Credit | Debit

  datatype Entry = Entry(account: string, accountType: AccountType, state: BalanceState, kind: Kind,
                         amount: int, before: int, after: int, key: string, stamp: int)

  datatype LedgerError = InvalidState | PersonalData | NoReason | NotPositive | Insufficient(available: int)

  datatype Outcome<+T> = Ok(value: T) | Err(error: LedgerError)

  /** A snapshot carries the escrow balance of a user and the earned balance of a model. */
  datatype Snapshot = Snapshot(available: int, escrow: Option<int>, earned: Option<int>)

  datatype Report = Report(starting: int, credits: int, debits: int, calculated: int, actual: int,
                           difference: int, reconciled: bool)

  function ValueOr(x: Option<int>, default: int): int { if x.Some? then x.value else default }

  function Abs(x: int): int { if x < 0 then -x else x }

  /** Users have no earned balance, models no escrow balance. */
  predicate Compatible(accountType: AccountType, state: BalanceState) {
    !(accountType == User && state == Earned) && !(accountType == Model && state == Escrow)
  }

  // ------------------------------------------------------------- meaning of a ledger

  ghost predicate TimeOrdered(es: seq<Entry>) {
    forall i, j :: 0 <= i < j < |es| ==> es[i].stamp <= es[j].stamp
  }

  predicate KeyUsed(es: seq<Entry>, key: string) { exists k :: 0 <= k < |es| && es[k].key == key }

  predicate Of(e: Entry, account: string, accountType: AccountType) {
    e.account == account && e.accountType == accountType
  }

  predicate UpTo(e: Entry, asOf: Option<int>) { asOf.None? || e.stamp <= asOf.value }

  /** The balance a snapshot shows for one state: the last entry wins. */
  function Shown(es: seq<Entry>, account: string, accountType: AccountType, asOf: Option<int>, state: BalanceState): int
  {
    if es == [] then 0
    else
      var e := es[|es| - 1];
      if Of(e, account, accountType) && UpTo(e, asOf) && e.state == state then e.after
      else Shown(es[..|es| - 1], account, accountType, asOf, state)
  }

  function SnapshotOf(es: seq<Entry>, account: string, accountType: AccountType, asOf: Option<int>): Snapshot {
    Snapshot(Shown(es, account, accountType, asOf, Available),
             if accountType == User then Some(Shown(es, account, accountType, asOf, Escrow)) else None,
             if accountType == Model then Some(Shown(es, account, accountType, asOf, Earned)) else None)
  }

  function Combined(s: Snapshot): int { s.available + ValueOr(s.escrow, 0) + ValueOr(s.earned, 0) }

  predicate Within(e: Entry, start: int, end: int) { start <= e.stamp <= end }

  function Credits(es: seq<Entry>, account: string, accountType: AccountType, start: int, end: int): int {
    if es == [] then 0
    else
      var e := es[|es| - 1];
      Credits(es[..|es| - 1], account, accountType, start, end)
      + if Of(e, account, accountType) && Within(e, start, end) && e.kind == Credit then e.amount else 0
  }

  function Debits(es: seq<Entry>, account: string, accountType: AccountType, start: int, end: int): int {
    if es == [] then 0
    else
      var e := es[|es| - 1];
      Debits(es[..|es| - 1], account, accountType, start, end)
      + if Of(e, account, accountType) && Within(e, start, end) && e.kind == Debit then Abs(e.amount) else 0
  }

  // ---------------------------------------------------------------------- service

  /** An entry that `createEntry` does not refuse. */
  predicate Acceptable(request: Entry, reason: string, metadata: seq<Field>) {
    Compatible(request.accountType, request.state) && !Refused(metadata) && reason != ""
  }

  /** The metadata of a promotional credit or debit: the caller's texts. */
  function Described(source: string, reason: string): seq<Field> {
    [Field("reason", Text(reason)), Field("source", Text(source))]
  }

  /** The texts hold an address. */
  predicate TellsAddress(source: string, reason: string) { HasAddress(reason) || HasAddress(source) }

  lemma DescribedIsRefused(source: string, reason: string)
    ensures Refused(Described(source, reason)) <==> TellsAddress(source, reason)
  {
    var fields := Described(source, reason);
    assert !PersonalName("reason") && !PersonalName("source");
    assert RefusedField(fields[0]) <==> HasAddress(reason);
    assert RefusedField(fields[1]) <==> HasAddress(source);
  }

  class LedgerService {
    var entries: seq<Entry>

    constructor ()
      ensures Valid() && entries == []
    {
      entries := [];
    }

    ghost predicate Valid()
      reads this
    {
      TimeOrdered(entries)
    }

    /** The clock has not gone back behind the last entry. */
    predicate Since(now: int)
      reads this
    {
      entries != [] ==> entries[|entries| - 1].stamp <= now
    }

    method FindByKey(key: string) returns (found: Option<Entry>)
      ensures found.None? <==> !KeyUsed(entries, key)
      ensures found.Some? ==> found.value in entries && found.value.key == key
    {
      for i := 0 to |entries|
        invariant forall k :: 0 <= k < i ==> entries[k].key != key
      {
        if entries[i].key == key {
          return Some(entries[i]);
        }
      }
      return None;
    }

    /** Appends an entry stamped `now`, or returns the entry that already has its key. Its
        state, its metadata and its reason are checked first, in this order. */
    method CreateEntry(request: Entry, reason: string, metadata: seq<Field>, now: int) returns (r: Outcome<Entry>)
      requires Valid() && Since(now)
      modifies this
      ensures Valid()
      ensures !Compatible(request.accountType, request.state) ==> r == Err(InvalidState)
      ensures Compatible(request.accountType, request.state) && Refused(metadata) ==> r == Err(PersonalData)
      ensures Compatible(request.accountType, request.state) && !Refused(metadata) && reason == "" ==> r == Err(NoReason)
      ensures r.Err? ==> entries == old(entries) && !Acceptable(request, reason, metadata)
      ensures Acceptable(request, reason, metadata) && KeyUsed(old(entries), request.key) ==>
                entries == old(entries) && r.Ok? && r.value in entries && r.value.key == request.key
      ensures Acceptable(request, reason, metadata) && !KeyUsed(old(entries), request.key) ==>
                entries == old(entries) + [request.(stamp := now)] && r == Ok(request.(stamp := now))
    {
      if request.accountType == User && request.state == Earned {
        return Err(InvalidState);
      }
      if request.accountType == Model && request.state == Escrow {
        return Err(InvalidState);
      }
      var refused := Check(metadata);
      if refused {
        return Err(PersonalData);
      }
      if reason == "" {
        return Err(NoReason);
      }
      var existing := FindByKey(request.key);
      if existing.Some? {
        return Ok(existing.value);
      }
      entries := entries + [request.(stamp := now)];
      return Ok(request.(stamp := now));
    }

    method GetBalanceSnapshot(account: string, accountType: AccountType, asOf: Option<int>) returns (s: Snapshot)
      ensures s == SnapshotOf(entries, account, accountType, asOf)
    {
      var available, escrow, earned := 0, 0, 0;
      for i := 0 to |entries|
        invariant available == Shown(entries[..i], account, accountType, asOf, Available)
        invariant escrow == Shown(entries[..i], account, accountType, asOf, Escrow)
        invariant earned == Shown(entries[..i], account, accountType, asOf, Earned)
      {
        var e := entries[i];
        assert entries[..i + 1][..i] == entries[..i];
        if Of(e, account, accountType) && UpTo(e, asOf) {
          match e.state {
            case Available => available := e.after;
            case Escrow => escrow := e.after;
            case Earned => earned := e.after;
          }
        }
      }
      assert entries[..|entries|] == entries;
      s := Snapshot(available, if accountType == User then Some(escrow) else None,
                    if accountType == Model then Some(earned) else None);
    }

    method GenerateReconciliationReport(account: string, accountType: AccountType, start: int, end: int)
      returns (r: Report)
      ensures r == ReportOf(entries, account, accountType, start, end)
    {
      var startSnapshot := GetBalanceSnapshot(account, accountType, Some(start));
      var credits, debits := 0, 0;
      for i := 0 to |entries|
        invariant credits == Credits(entries[..i], account, accountType, start, end)
        invariant debits == Debits(entries[..i], account, accountType, start, end)
      {
        var e := entries[i];
        assert entries[..i + 1][..i] == entries[..i];
        if Of(e, account, accountType) && Within(e, start, end) {
          if e.kind == Credit { credits := credits + e.amount; } else { debits := debits + Abs(e.amount); }
        }
      }
      assert entries[..|entries|] == entries;
      var endSnapshot := GetBalanceSnapshot(account, accountType, Some(end));
      var starting := Combined(startSnapshot);
      var calculated := starting + credits - debits;
      var actual := Combined(endSnapshot);
      r := Report(starting, credits, debits, calculated, actual, actual - calculated, actual - calculated == 0);
    }

    /** Credit on the ledger alone. */
    method CreditPoints(account: string, amount: int, source: string, reason: string, key: string, now: int)
      returns (r: Outcome<bool>)
      requires Valid() && Since(now)
      modifies this
      ensures Valid()
      ensures (r, entries) == CreditSpec(old(entries), account, amount, source, reason, key, now)
    {
      if amount <= 0 {
        return Err(NotPositive);
      }
      var snapshot := GetBalanceSnapshot(account, User, None);
      DescribedIsRefused(source, reason);
      var entry := Entry(account, User, Available, Credit, amount, snapshot.available, snapshot.available + amount, key, now);
      var created := CreateEntry(entry, "promotional_award", Described(source, reason), now);
      return if created.Ok? then Ok(true) else Err(created.error);
    }

    /** Deduction on the ledger alone. */
    method DeductPoints(account: string, amount: int, source: string, reason: string, key: string, now: int)
      returns (r: Outcome<bool>)
      requires Valid() && Since(now)
      modifies this
      ensures Valid()
      ensures (r, entries) == DeductSpec(old(entries), account, amount, source, reason, key, now)
    {
      if amount <= 0 {
        return Err(NotPositive);
      }
      var snapshot := GetBalanceSnapshot(account, User, None);
      if snapshot.available < amount {
        return Err(Insufficient(snapshot.available));
      }
      DescribedIsRefused(source, reason);
      var entry := Entry(account, User, Available, Debit, -amount, snapshot.available, snapshot.available - amount, key, now);
      var created := CreateEntry(entry, "admin_debit", Described(source, reason), now);
      return if created.Ok? then Ok(true) else Err(created.error);
    }
  }

  function ReportOf(es: seq<Entry>, account: string, accountType: AccountType, start: int, end: int): Report {
    var starting := Combined(SnapshotOf(es, account, accountType, Some(start)));
    var credits := Credits(es, account, accountType, start, end);
    var debits := Debits(es, account, accountType, start, end);
    var calculated := starting + credits - debits;
    var actual := Combined(SnapshotOf(es, account, accountType, Some(end)));
    Report(starting, credits, debits, calculated, actual, actual - calculated, actual - calculated == 0)
  }

  // ------------------------------------------------------------ what a report shows

  /** The figures of a report hang together. */
  lemma ReportAddsUp(es: seq<Entry>, account: string, accountType: AccountType, start: int, end: int)
    ensures var r := ReportOf(es, account, accountType, start, end);
            && r.calculated == r.starting + r.credits - r.debits
            && r.difference == r.actual - r.calculated && (r.reconciled <==> r.difference == 0)
  {
  }

  /** The entry is the account's and dated within the range. */
  predicate Counts(e: Entry, account: string, accountType: AccountType, start: int, end: int) {
    e.account == account && e.accountType == accountType && start <= e.stamp && e.stamp <= end
  }

  /** A report on an empty ledger shows nothing. Each credit of the account in the range
      raises the total of credits by its amount and leaves that of debits; each debit raises
      the total of debits by its size and leaves that of credits; any other entry leaves both. */
  lemma TotalsCount(es: seq<Entry>, e: Entry, account: string, accountType: AccountType, start: int, end: int)
    ensures var none := ReportOf([], account, accountType, start, end);
            none.credits == 0 && none.debits == 0 && none.starting == 0 && none.actual == 0
    ensures var r := ReportOf(es, account, accountType, start, end);
            var r' := ReportOf(es + [e], account, accountType, start, end);
            var counts := Counts(e, account, accountType, start, end);
            && r'.credits == r.credits + (if counts && e.kind == Credit then e.amount else 0)
            && r'.debits == r.debits + (if !(counts && e.kind == Debit) then 0 else if e.amount < 0 then -e.amount else e.amount)
  {
    assert (es + [e])[..|es|] == es;
  }

  /** A snapshot of an empty ledger shows nothing. Each entry of the account dated up to the
      snapshot replaces the balance of its own state and leaves the other states; any other
      entry leaves all. */
  lemma SnapshotFollows(es: seq<Entry>, e: Entry, account: string, accountType: AccountType, asOf: Option<int>,
                        state: BalanceState)
    ensures Shown([], account, accountType, asOf, state) == 0
    ensures Shown(es + [e], account, accountType, asOf, state)
            == if e.account == account && e.accountType == accountType && e.state == state
                  && (asOf == None || e.stamp <= asOf.value)
               then e.after else Shown(es, account, accountType, asOf, state)
  {
    assert (es + [e])[..|es|] == es;
  }

  /** A report starts from the balances shown at `start` and ends with those shown at `end`:
      available and escrow of a user, available and earned of a model. */
  lemma ReportBalances(es: seq<Entry>, account: string, accountType: AccountType, start: int, end: int)
    ensures var r := ReportOf(es, account, accountType, start, end);
            var second := if accountType == User then Escrow else Earned;
            && r.starting == Shown(es, account, accountType, Some(start), Available)
                             + Shown(es, account, accountType, Some(start), second)
            && r.actual == Shown(es, account, accountType, Some(end), Available)
                           + Shown(es, account, accountType, Some(end), second)
  {
  }

  // ---------------------------------------------------------------- reconciliation

  /** Arithmetic and sign of an entry that its creator filled in correctly. */
  predicate WellFormed(e: Entry) {
    && e.after == e.before + e.amount
    && (e.kind == Credit ==> e.amount >= 0) && (e.kind == Debit ==> e.amount <= 0)
    && Compatible(e.accountType, e.state)
  }

  ghost predicate AllWellFormed(es: seq<Entry>) { forall k :: 0 <= k < |es| ==> WellFormed(es[k]) }

  /** By how much an entry's `before` departs from the balance the earlier entries of
      its account and state left. */
  function Gap(earlier: seq<Entry>, e: Entry): int {
    e.before - Shown(earlier, e.account, e.accountType, None, e.state)
  }

  /** The gaps of an account's entries stamped after `lo` and not after `hi`. */
  function Gaps(es: seq<Entry>, account: string, accountType: AccountType, lo: int, hi: int): int {
    if es == [] then 0
    else
      var (earlier, e) := (es[..|es| - 1], es[|es| - 1]);
      Gaps(earlier, account, accountType, lo, hi)
      + if Of(e, account, accountType) && lo < e.stamp <= hi then Gap(earlier, e) else 0
  }

  /** The amounts of an account's entries stamped from `lo` to `hi`. */
  function Amounts(es: seq<Entry>, account: string, accountType: AccountType, lo: int, hi: int): int {
    if es == [] then 0
    else
      var e := es[|es| - 1];
      Amounts(es[..|es| - 1], account, accountType, lo, hi)
      + if Of(e, account, accountType) && Within(e, lo, hi) then e.amount else 0
  }

  /** A snapshot taken at or after the last entry shows what the whole ledger shows. */
  lemma {:induction false} ShownLate(es: seq<Entry>, account: string, accountType: AccountType, t: int, state: BalanceState)
    requires forall k :: 0 <= k < |es| ==> es[k].stamp <= t
    ensures Shown(es, account, accountType, Some(t), state) == Shown(es, account, accountType, None, state)
  {
    if es != [] {
      ShownLate(es[..|es| - 1], account, accountType, t, state);
    }
  }

  /** A state the account cannot have is shown as zero. */
  lemma {:induction false} ShownForeign(es: seq<Entry>, account: string, accountType: AccountType, asOf: Option<int>,
                                       state: BalanceState)
    requires AllWellFormed(es) && !Compatible(accountType, state)
    ensures Shown(es, account, accountType, asOf, state) == 0
  {
    if es != [] {
      assert WellFormed(es[|es| - 1]);
      ShownForeign(es[..|es| - 1], account, accountType, asOf, state);
    }
  }

  /** The sum of what a snapshot shows in all three states. */
  function AllStates(es: seq<Entry>, account: string, accountType: AccountType, asOf: Option<int>): int {
    Shown(es, account, accountType, asOf, Available) + Shown(es, account, accountType, asOf, Escrow)
    + Shown(es, account, accountType, asOf, Earned)
  }

  lemma CombinedIsAllStates(es: seq<Entry>, account: string, accountType: AccountType, asOf: Option<int>)
    requires AllWellFormed(es)
    ensures Combined(SnapshotOf(es, account, accountType, asOf)) == AllStates(es, account, accountType, asOf)
  {
    ShownForeign(es, account, accountType, asOf, if accountType == User then Earned else Escrow);
  }

  /** Between two instants a snapshot grows by the amounts and the gaps in between. */
  lemma {:induction false} SnapshotGrowth(es: seq<Entry>, account: string, accountType: AccountType, lo: int, hi: int)
    requires TimeOrdered(es) && AllWellFormed(es) && lo <= hi
    ensures AllStates(es, account, accountType, Some(hi)) - AllStates(es, account, accountType, Some(lo))
            == Amounts(es, account, accountType, lo + 1, hi) + Gaps(es, account, accountType, lo, hi)
  {
    if es != [] {
      var earlier, e := es[..|es| - 1], es[|es| - 1];
      SnapshotGrowth(earlier, account, accountType, lo, hi);
      assert WellFormed(e);
      if Of(e, account, accountType) && e.stamp <= hi {
        ShownLate(earlier, account, accountType, hi, e.state);
        if e.stamp <= lo {
          ShownLate(earlier, account, accountType, lo, e.state);
        }
      }
    }
  }

  lemma {:induction false} TotalsAreAmounts(es: seq<Entry>, account: string, accountType: AccountType, start: int, end: int)
    requires AllWellFormed(es)
    ensures Credits(es, account, accountType, start, end) - Debits(es, account, accountType, start, end)
            == Amounts(es, account, accountType, start, end)
  {
    if es != [] {
      assert WellFormed(es[|es| - 1]);
      TotalsAreAmounts(es[..|es| - 1], account, accountType, start, end);
    }
  }

  lemma {:induction false} AmountsSplit(es: seq<Entry>, account: string, accountType: AccountType, start: int, end: int)
    requires start <= end
    ensures Amounts(es, account, accountType, start, end)
            == Amounts(es, account, accountType, start, start) + Amounts(es, account, accountType, start + 1, end)
  {
    if es != [] {
      AmountsSplit(es[..|es| - 1], account, accountType, start, end);
    }
  }

  lemma {:induction false} AmountsEmpty(es: seq<Entry>, account: string, accountType: AccountType, start: int, end: int)
    requires end < start
    ensures Amounts(es, account, accountType, start, end) == 0
  {
    if es != [] {
      AmountsEmpty(es[..|es| - 1], account, accountType, start, end);
    }
  }

  /** The report's difference is the gaps after `start` minus the amounts stamped exactly
      at `start`, which the starting snapshot already contains and the totals count again. */
  lemma ReconciliationDifference(es: seq<Entry>, account: string, accountType: AccountType, start: int, end: int)
    requires TimeOrdered(es) && AllWellFormed(es)
    ensures var r := ReportOf(es, account, accountType, start, end);
            r.difference ==
              if start <= end
              then Gaps(es, account, accountType, start, end) - Amounts(es, account, accountType, start, start)
              else -(Gaps(es, account, accountType, end, start) + Amounts(es, account, accountType, end + 1, start))
  {
    CombinedIsAllStates(es, account, accountType, Some(start));
    CombinedIsAllStates(es, account, accountType, Some(end));
    TotalsAreAmounts(es, account, accountType, start, end);
    if start <= end {
      SnapshotGrowth(es, account, accountType, start, end);
      AmountsSplit(es, account, accountType, start, end);
    } else {
      SnapshotGrowth(es, account, accountType, end, start);
      AmountsEmpty(es, account, accountType, start, end);
    }
  }

  /** A ledger of one correct entry, and a report from the entry's own date: the entry is
      counted twice. */
  lemma StampedAtStart(account: string, amount: int, key: string, start: int, end: int)
    requires amount > 0 && start <= end
    ensures var es := [Entry(account, User, Available, Credit, amount, 0, amount, key, start)];
            AllWellFormed(es) && Gap([], es[0]) == 0 && ReportOf(es, account, User, start, end).difference == -amount
  {
    var e := Entry(account, User, Available, Credit, amount, 0, amount, key, start);
    var es := [e];
    assert es[..|es| - 1] == [];
    assert Gaps(es, account, User, start, end) == Gaps([], account, User, start, end) == 0;
    assert Amounts(es, account, User, start, start) == Amounts([], account, User, start, start) + amount;
    ReconciliationDifference(es, account, User, start, end);
  }

  /** Over the full history a ledger reconciles exactly when its gaps sum to zero. */
  lemma FullHistoryReconciles(es: seq<Entry>, account: string, accountType: AccountType, epoch: int, now: int)
    requires TimeOrdered(es) && AllWellFormed(es) && epoch <= now
    requires forall k :: 0 <= k < |es| ==> epoch < es[k].stamp
    ensures ReportOf(es, account, accountType, epoch, now).reconciled <==> Gaps(es, account, accountType, epoch, now) == 0
  {
    ReconciliationDifference(es, account, accountType, epoch, now);
    AmountsBefore(es, account, accountType, epoch);
  }

  lemma {:induction false} AmountsBefore(es: seq<Entry>, account: string, accountType: AccountType, t: int)
    requires forall k :: 0 <= k < |es| ==> t < es[k].stamp
    ensures Amounts(es, account, accountType, t, t) == 0
  {
    if es != [] {
      AmountsBefore(es[..|es| - 1], account, accountType, t);
    }
  }

  /** A chained ledger has no gaps; it reconciles over any range that has nothing of the
      account stamped exactly at its start. */
  lemma {:induction false} ChainedHasNoGaps(es: seq<Entry>, account: string, accountType: AccountType, lo: int, hi: int)
    requires forall k | 0 <= k < |es| && Of(es[k], account, accountType) :: Gap(es[..k], es[k]) == 0
    ensures Gaps(es, account, accountType, lo, hi) == 0
  {
    if es != [] {
      var earlier := es[..|es| - 1];
      forall k | 0 <= k < |earlier| && Of(earlier[k], account, accountType) ensures Gap(earlier[..k], earlier[k]) == 0 {
        assert earlier[..k] == es[..k];
      }
      ChainedHasNoGaps(earlier, account, accountType, lo, hi);
    }
  }

  // --------------------------------------------------------- credits and deductions

  function AvailableNow(es: seq<Entry>, account: string): int { Shown(es, account, User, None, Available) }

  function Append(es: seq<Entry>, e: Entry): seq<Entry> { if KeyUsed(es, e.key) then es else es + [e] }

  function CreditSpec(es: seq<Entry>, account: string, amount: int, source: string, reason: string, key: string, now: int)
    : (Outcome<bool>, seq<Entry>)
  {
    if amount <= 0 then (Err(NotPositive), es)
    else if TellsAddress(source, reason) then (Err(PersonalData), es)
    else
      var before := AvailableNow(es, account);
      (Ok(true), Append(es, Entry(account, User, Available, Credit, amount, before, before + amount, key, now)))
  }

  function DeductSpec(es: seq<Entry>, account: string, amount: int, source: string, reason: string, key: string, now: int)
    : (Outcome<bool>, seq<Entry>)
  {
    var before := AvailableNow(es, account);
    if amount <= 0 then (Err(NotPositive), es)
    else if before < amount then (Err(Insufficient(before)), es)
    else if TellsAddress(source, reason) then (Err(PersonalData), es)
    else (Ok(true), Append(es, Entry(account, User, Available, Debit, -amount, before, before - amount, key, now)))
  }

  /** A credit succeeds exactly for a positive amount without an address in its texts. It then
      adds, unless its key is used, one entry that raises the account's balance. */
  lemma CreditsExactly(es: seq<Entry>, account: string, amount: int, source: string, reason: string, key: string, now: int)
    ensures var (r, es') := CreditSpec(es, account, amount, source, reason, key, now);
            var before := AvailableNow(es, account);
            && (r.Ok? <==> amount > 0 && !HasAddress(reason) && !HasAddress(source))
            && (r == Err(NotPositive) <==> amount <= 0) && (r.Err? ==> r.error == NotPositive || r.error == PersonalData)
            && es' == if r.Ok? && !KeyUsed(es, key)
                      then es + [Entry(account, User, Available, Credit, amount, before, before + amount, key, now)] else es
  {
  }

  /** A deduction succeeds exactly for a positive amount that the balance covers, down to the
      last point, without an address in its texts. It then adds, unless its key is used, one
      entry that lowers the account's balance. */
  lemma DeductsExactly(es: seq<Entry>, account: string, amount: int, source: string, reason: string, key: string, now: int)
    ensures var (r, es') := DeductSpec(es, account, amount, source, reason, key, now);
            var before := AvailableNow(es, account);
            && (r.Ok? <==> 0 < amount <= before && !HasAddress(reason) && !HasAddress(source))
            && (r == Err(NotPositive) <==> amount <= 0)
            && (r.Err? && r.error.Insufficient? <==> amount > before && amount > 0)
            && (r.Err? && r.error.Insufficient? ==> r.error.available == before)
            && es' == if r.Ok? && !KeyUsed(es, key)
                      then es + [Entry(account, User, Available, Debit, -amount, before, before - amount, key, now)] else es
  {
  }

  /** A deduction with an unused key lowers its account's balance and no other. */
  lemma DeductLowers(es: seq<Entry>, account: string, amount: int, source: string, reason: string, key: string, now: int,
                     other: string)
    requires 0 < amount <= AvailableNow(es, account) && !TellsAddress(source, reason) && !KeyUsed(es, key)
    ensures AvailableNow(DeductSpec(es, account, amount, source, reason, key, now).1, other)
            == AvailableNow(es, other) - if account == other then amount else 0
  {
    var es' := DeductSpec(es, account, amount, source, reason, key, now).1;
    assert es'[..|es'| - 1] == es;
  }

  datatype Command =
    | CreditCommand(account: string, amount: int, source: string, reason: string, key: string, now: int)
    | DeductCommand(account: string, amount: int, source: string, reason: string, key: string, now: int)

  function RunCommand(es: seq<Entry>, c: Command): seq<Entry> {
    match c
    case CreditCommand(account, amount, source, reason, key, now) =>
      CreditSpec(es, account, amount, source, reason, key, now).1
    case DeductCommand(account, amount, source, reason, key, now) =>
      DeductSpec(es, account, amount, source, reason, key, now).1
  }

  function RunCommands(cs: seq<Command>): seq<Entry> {
    if cs == [] then [] else RunCommand(RunCommands(cs[..|cs| - 1]), cs[|cs| - 1])
  }

  function AmountsOf(es: seq<Entry>, account: string): int {
    if es == [] then 0
    else
      AmountsOf(es[..|es| - 1], account)
      + if Of(es[|es| - 1], account, User) then es[|es| - 1].amount else 0
  }

  /** Each entry starts from the balance the earlier ones left and none leaves a debt. */
  ghost predicate ChainedLedger(es: seq<Entry>) {
    forall k :: 0 <= k < |es| ==>
      WellFormed(es[k]) && es[k].state == Available && es[k].accountType == User
      && Gap(es[..k], es[k]) == 0 && es[k].after >= 0
  }

  lemma {:induction false} ChainedSnapshot(es: seq<Entry>, account: string)
    requires ChainedLedger(es)
    ensures AvailableNow(es, account) == AmountsOf(es, account) >= 0
  {
    if es != [] {
      var earlier, e := es[..|es| - 1], es[|es| - 1];
      forall k | 0 <= k < |earlier| ensures Gap(earlier[..k], earlier[k]) == 0 { assert earlier[..k] == es[..k]; }
      ChainedSnapshot(earlier, account);
      assert Gap(earlier, e) == 0 && WellFormed(e);
    }
  }

  lemma ChainedCommand(es: seq<Entry>, c: Command)
    requires ChainedLedger(es)
    ensures ChainedLedger(RunCommand(es, c))
  {
    ChainedSnapshot(es, c.account);
    var es' := RunCommand(es, c);
    forall k | 0 <= k < |es'|
      ensures WellFormed(es'[k]) && es'[k].state == Available && es'[k].accountType == User
              && Gap(es'[..k], es'[k]) == 0 && es'[k].after >= 0
    {
      assert es'[..k] == es[..k];
      if k == |es| { assert es[..k] == es; }
    }
  }

  /** Every serial sequence of credits and deductions from an empty ledger keeps each
      account chained and non-negative, with its snapshot equal to its sum of amounts. */
  lemma {:induction false} LedgerOnlyPath(cs: seq<Command>, account: string)
    ensures var es := RunCommands(cs);
            ChainedLedger(es) && AvailableNow(es, account) == AmountsOf(es, account) >= 0
  {
    if cs != [] {
      LedgerOnlyPath(cs[..|cs| - 1], account);
      ChainedCommand(RunCommands(cs[..|cs| - 1]), cs[|cs| - 1]);
    }
    ChainedSnapshot(RunCommands(cs), account);
  }

  lemma KeyKept(es: seq<Entry>, c: Command, key: string)
    requires KeyUsed(es, key)
    ensures KeyUsed(RunCommand(es, c), key)
  {
    var k :| 0 <= k < |es| && es[k].key == key;
    assert RunCommand(es, c)[k] == es[k];
  }

  lemma {:induction false} KeyPersists(cs: seq<Command>, n: nat, key: string)
    requires n <= |cs| && KeyUsed(RunCommands(cs[..n]), key)
    ensures KeyUsed(RunCommands(cs), key)
    decreases |cs|
  {
    if n < |cs| {
      var m := |cs| - 1;
      assert cs[..m][..n] == cs[..n];
      KeyPersists(cs[..m], n, key);
      KeyKept(RunCommands(cs[..m]), cs[m], key);
    } else {
      assert cs[..n] == cs;
    }
  }

  /** A key acts at most once: repeating a call with a used key, at any later point and
      whatever its other arguments, changes nothing. */
  lemma KeyStaysUsed(cs: seq<Command>, n: nat, c: Command)
    requires n <= |cs| && KeyUsed(RunCommands(cs[..n]), c.key)
    ensures RunCommand(RunCommands(cs), c) == RunCommands(cs)
  {
    KeyPersists(cs, n, c.key);
    UsedKeyIdles(RunCommands(cs), c);
  }

  lemma UsedKeyIdles(es: seq<Entry>, c: Command)
    requires KeyUsed(es, c.key)
    ensures RunCommand(es, c) == es
  {
  }
}
