/** The wallet services as programs over the shared database: holding, settling,
    refunding and partially settling escrow, and the direct award and deduction. Other
    calls act between any two database calls. */
module WalletService {
  import opened Options
  import opened EscrowProtocol
  import opened EscrowSteps
  import opened EscrowItems
  import opened EscrowSerial
  import opened EscrowAccounts
  import opened EscrowTheorems
  import opened EscrowStuck
  import opened EscrowRefused
  import opened WalletDatabase

  /** The document that a lost compare-and-swap was on. */
  datatype Resource = UserWallet | ModelWalletDocument

  datatype WalletError =
    | KeyAlreadyUsed
    | InsufficientBalance(required: int, available: int)
    | LockConflict(resource: Resource)
    | DuplicateDocument
    | EscrowNotFound
    | AlreadyProcessed(status: Status)
    | WalletNotFound
    | AmountsDiffer
    | InvalidAmount
    | MetadataRefused

  datatype Outcome<+T> = Ok(value: T) | Err(error: WalletError)

  datatype HoldResponse = HoldResponse(escrowId: EscrowId, previousBalance: int, newAvailable: int, escrowBalance: int)

  datatype PartialResponse = PartialResponse(userAvailable: int, modelEarned: int)

  // ------------------------------------------------------------- what a call has done

  /** The call's wallet update is in the commit history with these balances. */
  predicate UserCommitted(s: State, i: nat, before: Wallet, after: Wallet) {
    i < |s.ops| && exists k :: 0 <= k < |s.log| && s.log[k] == UserCommit(i, s.ops[i].user, before, after)
  }

  predicate ModelCommitted(s: State, i: nat, model: ModelId, before: ModelWallet, after: ModelWallet) {
    exists k :: 0 <= k < |s.log| && s.log[k] == ModelCommit(i, model, before, after)
  }

  lemma CommitFound(s: State, i: nat)
    requires Reachable(s) && i < |s.ops|
    ensures s.ops[i].userDone ==>
              RunAlone(s.ops[i], s.ops[i].seen).Some?
              && UserCommitted(s, i, s.ops[i].seen, RunAlone(s.ops[i], s.ops[i].seen).value)
    ensures s.ops[i].modelDone ==>
              HasModel(s.ops[i].req) && RunAloneModel(s.ops[i], s.ops[i].seenModel).Some?
              && ModelCommitted(s, i, s.ops[i].req.model, s.ops[i].seenModel,
                                RunAloneModel(s.ops[i], s.ops[i].seenModel).value)
  {
    Invariants(s);
    if s.ops[i].userDone {
      var k :| 0 <= k < |s.log| && s.log[k].UserCommit? && s.log[k].call == i;
      assert CommitOk(s.ops, s.log[k]);
    }
    if s.ops[i].modelDone {
      var k :| 0 <= k < |s.log| && s.log[k].ModelCommit? && s.log[k].call == i;
      assert CommitOk(s.ops, s.log[k]);
    }
  }

  /** A final item is still final after whatever followed. */
  lemma StillFinal(cfg: Config, past: seq<Action>, before: State, now: seq<Action>, after: State, e: EscrowId)
    requires LeadsTo(cfg, past, before) && LeadsTo(cfg, now, after) && past <= now
    requires e in before.escrows && Final(before.escrows[e].status)
    ensures e in after.escrows && after.escrows[e] == before.escrows[e]
  {
    var states: seq<State> :| IsRun(states, now) && states[0].config == cfg && states[|now|] == after;
    var first: seq<State> :| IsRun(first, past) && first[0].config == cfg && first[|past|] == before;
    RunPrefix(states, now, |past|);
    assert now[..|past|] == past;
    RunIsExec(states[..|past| + 1], past);
    RunIsExec(first, past);
    FinalForever(states, now, |past|, |now|, e);
  }

  class WalletService {
    const db: Database

    constructor (db: Database)
      ensures this.db == db
    {
      this.db := db;
    }

    /** Where the call stands, for contracts. */
    ghost function Call(i: nat): Op
      requires i < |db.calls|
      reads db
    {
      db.calls[i]
    }

    ghost predicate After(past: seq<Action>, i: nat, req: Request)
      reads db
    {
      db.Valid() && past <= db.history && i < |db.calls| && db.calls[i].req == req
    }

    // ------------------------------------------------------------------------- hold

    ghost predicate HoldDone(i: nat, response: HoldResponse)
      requires i < |db.calls|
      reads db
    {
      var op := db.calls[i];
      && op.req.Hold? && !op.req.refused && op.pc == Done && op.userDone && op.item == Some(response.escrowId)
      && response.previousBalance == op.seen.available && response.newAvailable == op.seen.available - op.req.amount
      && response.escrowBalance == op.seen.escrow + op.req.amount
    }

    /** The ledger entries of a committed hold; the first refusal throws. */
    method WriteHoldEntries(i: nat, wallet: Wallet, user: UserId, amount: int, key: Key, refused: bool)
      returns (written: bool)
      requires db.Calling(i, WriteFirst) && Call(i).req.Hold? && Call(i).req.key == key && Call(i).req.amount == amount
      requires amount > 0 && Call(i).req.refused == refused && Call(i).user == user && Call(i).seen == wallet
      modifies db
      ensures After(old(db.history), i, old(Call(i).req))
      ensures Call(i) == old(Call(i)).(pc := if written then Done else EntryRefused,
                                       first := Call(i).first, second := Call(i).second)
      ensures written == !refused
    {
      var debit := Entry(key + "_debit", Available(user), -amount, wallet.available, wallet.available - amount);
      var fate := db.CreateEntry(i, debit, refused);
      if fate.None? {
        return false;
      }
      var credit := Entry(key + "_credit", Escrow(user), amount, wallet.escrow, wallet.escrow + amount);
      fate := db.CreateEntry(i, credit, refused);
      return fate.Some?;
    }

    method GetOrCreateWallet(i: nat, user: UserId) returns (wallet: Option<Wallet>)
      requires db.Calling(i, ReadUser) && user == Call(i).user && (Call(i).req.Hold? || Call(i).req.Award?)
      modifies db
      ensures db.Reached(old(db.history), i,
                         if wallet.Some? then AfterRead(old(Call(i)), wallet.value, 0) else old(Call(i)).(pc := Failed))
    {
      wallet := db.FindWallet(i, user);
      if wallet.None? {
        wallet := db.CreateWallet(i, user);
      }
    }

    /** The hold has lost its wallet, deleted its item, and may try again or not. */
    ghost predicate LostHold(i: nat, attempts: nat, slept: nat)
      requires i < |db.calls|
      reads db
    {
      var again := attempts + 1 < db.config.maxAttempts;
      && Call(i).pc == (if again then ReadUser else Failed)
      && Call(i).attempts == (if again then attempts + 1 else attempts)
      && Call(i).slept == if again then slept + Backoff(db.config.backoffMs, attempts + 1) else slept
    }

    /** How a hold past its claim ends when it throws: after its commit when its entries are
        refused; else with nothing committed, because the balance it read was too low, because
        it lost its wallet on its last attempt, or on a unique index. */
    ghost predicate HoldThrew(i: nat, e: WalletError, refused: bool)
      requires i < |db.calls| && Call(i).req.Hold?
      reads db
    {
      match e
      case MetadataRefused => refused && Call(i).pc == EntryRefused
      case InsufficientBalance(required, available) =>
        Call(i).pc == Failed && required == Call(i).req.amount && available == Call(i).seen.available < required
      case LockConflict(UserWallet) => Call(i).pc == Failed && Call(i).attempts + 1 >= db.config.maxAttempts
      case DuplicateDocument => Call(i).pc == Failed
      case _ => false
    }

    /** How an attempt ends that began with these counters. */
    ghost predicate Attempted(i: nat, r: Outcome<HoldResponse>, attempts: nat, slept: nat, refused: bool)
      requires i < |db.calls| && Call(i).req.Hold?
      reads db
    {
      match r
      case Ok(response) => HoldDone(i, response) && Call(i).slept == slept
      case Err(LockConflict(UserWallet)) => LostHold(i, attempts, slept)
      case Err(e) => HoldThrew(i, e, refused) && Call(i).slept == slept
    }

    method ExecuteHoldInEscrow(i: nat, user: UserId, amount: int, queueItem: QueueId, key: Key, refused: bool)
      returns (r: Outcome<HoldResponse>)
      requires db.Calling(i, ReadUser) && Call(i).req == Hold(user, amount, queueItem, key, refused)
      requires Call(i).user == user && amount > 0
      modifies db
      ensures After(old(db.history), i, old(Call(i).req)) && Call(i).user == user
      ensures Attempted(i, r, old(Call(i).attempts), old(Call(i).slept), refused)
    {
      var wallet := GetOrCreateWallet(i, user);
      if wallet.None? {
        return Err(DuplicateDocument);
      }
      if wallet.value.available < amount {
        return Err(InsufficientBalance(amount, wallet.value.available));
      }
      r := InsertAndUpdate(i, wallet.value, user, amount, queueItem, key, refused);
    }

    method InsertAndUpdate(i: nat, wallet: Wallet, user: UserId, amount: int, queueItem: QueueId, key: Key, refused: bool)
      returns (r: Outcome<HoldResponse>)
      requires db.Calling(i, InsertItem) && Call(i).req == Hold(user, amount, queueItem, key, refused)
      requires Call(i).user == user && amount > 0 && Call(i).seen == wallet
      modifies db
      ensures After(old(db.history), i, old(Call(i).req)) && Call(i).user == user
      ensures Attempted(i, r, old(Call(i).attempts), old(Call(i).slept), refused)
    {
      var escrowId := db.Insert(i, user, amount, queueItem);
      if escrowId.None? {
        return Err(DuplicateDocument);
      }
      r := UpdateAndRecord(i, wallet, user, amount, escrowId.value, key, refused);
    }

    method UpdateAndRecord(i: nat, wallet: Wallet, user: UserId, amount: int, escrowId: EscrowId, key: Key, refused: bool)
      returns (r: Outcome<HoldResponse>)
      requires db.Calling(i, CasUser) && Call(i).req.Hold? && Call(i).req.amount == amount && Call(i).req.key == key
      requires Call(i).user == user && amount > 0 && Call(i).seen == wallet && Call(i).item == Some(escrowId)
      requires Call(i).req.refused == refused
      modifies db
      ensures After(old(db.history), i, old(Call(i).req)) && Call(i).user == user
      ensures Attempted(i, r, old(Call(i).attempts), old(Call(i).slept), refused)
    {
      var newAvailable := wallet.available - amount;
      var newEscrow := wallet.escrow + amount;
      var updated := db.SetBalances(i, user, wallet.version, newAvailable, newEscrow);
      if !updated {
          db.Delete(i, escrowId);
        return Err(LockConflict(UserWallet));
      }
      var written := WriteHoldEntries(i, wallet, user, amount, key, refused);
      if !written {
        return Err(MetadataRefused);
      }
      return Ok(HoldResponse(escrowId, wallet.available, newAvailable, newEscrow));
    }

    /** Before attempt number `attempts`, or after the last. */
    ghost predicate Retrying(past: seq<Action>, i: nat, req: Request, attempts: nat, slept: nat)
      requires req.Hold?
      reads db
    {
      && After(past, i, req) && Call(i).user == req.user && Call(i).attempts == attempts && Call(i).slept == slept
      && (attempts < db.config.maxAttempts || attempts == 0)
      && Call(i).pc == if attempts < db.config.maxAttempts then ReadUser else Failed
    }

    /** One attempt and, when its wallet was lost and another remains, the back-off. */
    method AttemptHold(i: nat, user: UserId, amount: int, queueItem: QueueId, key: Key, refused: bool,
                       attempts: nat, slept: nat)
      returns (r: Outcome<HoldResponse>, again: bool, total: nat)
      requires Retrying(db.history, i, Hold(user, amount, queueItem, key, refused), attempts, slept)
      requires attempts < db.config.maxAttempts && amount > 0
      modifies db
      ensures After(old(db.history), i, old(Call(i).req)) && total == Call(i).slept
      ensures again ==> r == Err(LockConflict(UserWallet))
                        && Retrying(old(db.history), i, old(Call(i).req), attempts + 1, total)
                        && attempts + 1 < db.config.maxAttempts
      ensures !again ==> if r.Ok? then HoldDone(i, r.value) else HoldThrew(i, r.error, refused)
    {
      r := ExecuteHoldInEscrow(i, user, amount, queueItem, key, refused);
      again := r == Err(LockConflict(UserWallet)) && attempts < db.config.maxAttempts - 1;
      total := if again then slept + Backoff(db.config.backoffMs, attempts + 1) else slept;
    }

    /** The retry loop: `slept` is the time spent in back-offs. */
    method RetryHold(i: nat, user: UserId, amount: int, queueItem: QueueId, key: Key, refused: bool)
      returns (r: Outcome<HoldResponse>, slept: nat)
      requires Retrying(db.history, i, Hold(user, amount, queueItem, key, refused), 0, 0) && amount > 0
      modifies db
      ensures After(old(db.history), i, old(Call(i).req))
      ensures if r.Ok? then HoldDone(i, r.value) else HoldThrew(i, r.error, refused)
      ensures slept == Call(i).slept
    {
      r, slept := Err(LockConflict(UserWallet)), 0;
      var attempts, again := 0, true;
      while again && attempts < db.config.maxAttempts
        invariant After(old(db.history), i, old(Call(i).req)) && slept == Call(i).slept
        invariant again ==> r == Err(LockConflict(UserWallet))
                            && Retrying(old(db.history), i, old(Call(i).req), attempts, slept)
        invariant !again ==> if r.Ok? then HoldDone(i, r.value) else HoldThrew(i, r.error, refused)
        decreases db.config.maxAttempts - attempts
      {
        r, again, slept := AttemptHold(i, user, amount, queueItem, key, refused, attempts, slept);
        attempts := attempts + 1;
      }
    }

    /** `refused`: the ledger refuses the request's metadata. */
    method HoldInEscrow(user: UserId, amount: int, queueItem: QueueId, key: Key, refused: bool)
      returns (r: Outcome<HoldResponse>, i: nat, slept: nat)
      requires db.Valid() && amount > 0
      modifies db
      ensures After(old(db.history), i, Hold(user, amount, queueItem, key, refused))
      ensures r.Ok? ==> HoldDone(i, r.value) && !refused
      ensures r.Ok? ==>
                var w := Call(i).seen;
                UserCommitted(db.View(), i, w, Wallet(r.value.newAvailable, r.value.escrowBalance, w.version + 1))
                && r.value.previousBalance >= amount
      ensures r.Err? ==> if r.error == KeyAlreadyUsed then Call(i).pc == Rejected else HoldThrew(i, r.error, refused)
      ensures r.Err? ==> if r.error == MetadataRefused then HoldUnrecorded(i) else LeftNothing(db.View(), i)
      ensures slept == db.config.backoffMs * (Pow2(Call(i).attempts + 1) - 2)
      ensures db.config.maxAttempts > 0 ==> slept <= db.config.backoffMs * (Pow2(db.config.maxAttempts) - 2)
    {
      i := db.Begin(Hold(user, amount, queueItem, key, refused));
      var claimed := db.ClaimIdempotency(i, HoldScope, key);
      if claimed {
        r, slept := RetryHold(i, user, amount, queueItem, key, refused);
      } else {
        r, slept := Err(KeyAlreadyUsed), 0;
      }
      HoldEnds(i, r, slept);
    }

    /** The hold's points are in escrow, in a held item, and its entries in no ledger. */
    ghost predicate HoldUnrecorded(i: nat)
      requires i < |db.calls| && Call(i).req.Hold?
      reads db
    {
      var (w, amount) := (Call(i).seen, Call(i).req.amount);
      && Unrecorded(Call(i)) && LeavesItem(db.View(), i)
      && UserCommitted(db.View(), i, w, Wallet(w.available - amount, w.escrow + amount, w.version + 1))
    }

    /** What the transition system knows of a hold that has returned or thrown. */
    lemma HoldEnds(i: nat, r: Outcome<HoldResponse>, slept: nat)
      requires db.Valid() && i < |db.calls| && Call(i).req.Hold?
      requires if r.Ok? then HoldDone(i, r.value)
               else if r.error == MetadataRefused then Call(i).pc == EntryRefused
               else Call(i).pc == Failed || Call(i).pc == Rejected
      requires slept == Call(i).slept
      ensures r.Ok? ==>
                var w := Call(i).seen;
                UserCommitted(db.View(), i, w, Wallet(r.value.newAvailable, r.value.escrowBalance, w.version + 1))
                && w.available >= Call(i).req.amount
      ensures r.Err? ==> if r.error == MetadataRefused then HoldUnrecorded(i) else LeftNothing(db.View(), i)
      ensures slept == db.config.backoffMs * (Pow2(Call(i).attempts + 1) - 2)
      ensures db.config.maxAttempts > 0 ==> slept <= db.config.backoffMs * (Pow2(db.config.maxAttempts) - 2)
    {
      LeadsIsReachable(db.config, db.history, db.View());
      HoldSleeps(db.View(), i);
      if r.Ok? {
        CommitFound(db.View(), i);
      } else if r.error == MetadataRefused {
        RefusedLeaves(db.View(), i);
        CommitFound(db.View(), i);
      } else {
        HoldFailsCleanly(db.View(), i);
      }
      if db.config.maxAttempts > 0 {
        HoldIsBounded(db.View(), i);
      }
    }

    // --------------------------------------------------------------------- releases

    /** The call has committed: it returned, or threw on a refused entry. */
    predicate Committed<T>(r: Outcome<T>) { r.Ok? || r.error == MetadataRefused }

    function CommittedPc<T>(r: Outcome<T>): Pc { if r.Ok? then Done else EntryRefused }

    predicate ItemIs(escrowId: EscrowId, status: Status)
      reads db
    {
      escrowId in db.escrows && db.escrows[escrowId].status == status
    }

    /** Thrown before the item was locked: the key was claimed, the item does not exist, or it
        was found in the status told. */
    ghost predicate NotLocked(i: nat, escrowId: EscrowId, e: WalletError)
      requires i < |db.calls|
      reads db
    {
      match e
      case KeyAlreadyUsed => Call(i).pc == Rejected
      case EscrowNotFound => Call(i).pc == Failed && escrowId !in db.escrows
      case AlreadyProcessed(status) => Call(i).pc == Failed && ItemIs(escrowId, status)
      case _ => false
    }

    /** Claims the key and moves the item out of 'held'. */
    method ClaimAndLock(i: nat, scope: Scope, busy: Status, escrowId: EscrowId, key: Key) returns (r: Outcome<Item>)
      requires db.Calling(i, Claim) && IsRelease(Call(i).req) && Call(i).item == Some(escrowId)
      requires (scope, key) == ClaimOf(Call(i).req) && busy == BusyStatus(Call(i).req)
      modifies db
      ensures After(old(db.history), i, old(Call(i).req))
      ensures r.Ok? ==> Call(i) == Locking(old(Call(i)), r.value) && Agrees(Call(i).req, r.value) && r.value.amount > 0
      ensures r.Err? ==> NotLocked(i, escrowId, r.error) && Call(i) == old(Call(i)).(pc := Call(i).pc)
    {
      var claimed := db.ClaimIdempotency(i, scope, key);
      if !claimed {
        return Err(KeyAlreadyUsed);
      }
      var escrow := db.LockHeld(i, escrowId, busy);
      if escrow.None? {
        var existing := db.FindItem(i, escrowId);
        return Err(if existing.None? then EscrowNotFound else AlreadyProcessed(existing.value.status));
      }
      return Ok(escrow.value);
    }

    /** A release up to its lock: it throws with nothing left, or has its item. */
    method BeginRelease(req: Request, scope: Scope, busy: Status, escrowId: EscrowId, key: Key)
      returns (r: Outcome<Item>, i: nat)
      requires db.Valid() && Honest(db.View(), req) && IsRelease(req) && escrowId == req.escrowId
      requires (scope, key) == ClaimOf(req) && busy == BusyStatus(req)
      modifies db
      ensures After(old(db.history), i, req)
      ensures r.Ok? ==> Call(i) == Locking(NewOp(db.config, req).(pc := LockItem), r.value)
      ensures r.Ok? ==> Agrees(req, r.value) && r.value.amount > 0
      ensures r.Err? ==> NotLocked(i, escrowId, r.error) && LeftNothing(db.View(), i)
    {
      i := db.Begin(req);
      r := ClaimAndLock(i, scope, busy, escrowId, key);
      if r.Err? {
        LeadsIsReachable(db.config, db.history, db.View());
        Uncommitted(db.View(), i);
      }
    }

    method GetOrCreateModelWallet(i: nat, model: ModelId) returns (wallet: Option<ModelWallet>)
      requires db.Calling(i, ReadModel) && HasModel(Call(i).req) && Call(i).req.model == model
      modifies db
      ensures db.Reached(old(db.history), i,
                         if wallet.Some? then AfterModelRead(old(Call(i)), wallet.value) else old(Call(i)).(pc := Stuck))
    {
      wallet := db.FindModelWallet(i, model);
      if wallet.None? {
        wallet := db.CreateModelWallet(i, model);
      }
    }

    /** Sets the final status and writes the one entry of a settle or a refund. */
    method FinalizeOne(i: nat, escrowId: EscrowId, final: Status, entry: Entry, refused: bool) returns (written: bool)
      requires db.Calling(i, FinalizeItem) && Call(i).item == Some(escrowId) && entry.amount != 0
      requires (Call(i).req.Settle? || Call(i).req.Refund?) && entry == FirstEntry(Call(i))
      requires final == FinalStatus(Call(i).req) && refused == Call(i).req.refused
      modifies db
      ensures After(old(db.history), i, old(Call(i).req)) && written == !refused
      ensures Call(i) == old(Call(i)).(pc := if written then Done else EntryRefused, first := Call(i).first)
      ensures ItemIs(escrowId, final)
    {
      db.SetStatus(i, escrowId, final);
      ghost var (past, before) := (db.history, db.View());
      var fate := db.CreateEntry(i, entry, refused);
      StillFinal(db.config, past, before, db.history, db.View(), escrowId);
      return fate.Some?;
    }

    /** Increments the wallet read, or puts the item back when the wallet has changed. */
    method IncOrRelease(i: nat, escrowId: EscrowId, user: UserId, wallet: Wallet, available: int, escrow: int)
      returns (updated: bool)
      requires db.Calling(i, CasUser) && Call(i).item == Some(escrowId) && Call(i).user == user && wallet == Call(i).seen
      requires (Call(i).req.Settle? || Call(i).req.Refund?)
      requires available == AvailableDelta(Call(i)) && escrow == EscrowDelta(Call(i).req)
      modifies db
      ensures db.Reached(old(db.history), i, if updated then Won(old(Call(i))) else old(Call(i)).(pc := Failed))
      ensures !updated ==> ItemIs(escrowId, Held)
    {
      updated := db.IncBalances(i, user, wallet.version, None, available, escrow);
      if !updated {
        db.SetStatus(i, escrowId, Held);
      }
    }

    /** The user's side of a settle or a refund; a lost wallet puts the item back. */
    method UpdateUser(i: nat, escrowId: EscrowId, user: UserId, available: int, escrow: int) returns (r: Outcome<Wallet>)
      requires db.Calling(i, ReadUser) && Call(i).item == Some(escrowId) && user == Call(i).user && !Call(i).userDone
      requires (Call(i).req.Settle? || Call(i).req.Refund?)
      requires available == AvailableDelta(Call(i)) && escrow == EscrowDelta(Call(i).req)
      modifies db
      ensures After(old(db.history), i, old(Call(i).req))
      ensures Call(i) == old(Call(i)).(pc := Call(i).pc, seen := Call(i).seen, userDone := r.Ok?)
      ensures r.Ok? ==> Call(i).pc == FinalizeItem && r.value == Call(i).seen
      ensures r.Err? ==>
                if Call(i).pc == Stuck then r.error == WalletNotFound
                else r.error == LockConflict(UserWallet) && Call(i).pc == Failed && ItemIs(escrowId, Held)
    {
      var wallet := db.FindWallet(i, user);
      if wallet.None? {
        return Err(WalletNotFound);
      }
      var updated := IncOrRelease(i, escrowId, user, wallet.value, available, escrow);
      return if updated then Ok(wallet.value) else Err(LockConflict(UserWallet));
    }

    /** The model's side of a settle; a lost model wallet throws and leaves the item locked. */
    method CreditModel(i: nat, model: ModelId, amount: int) returns (r: Outcome<int>)
      requires db.Calling(i, ReadModel) && Call(i).req.Settle? && Call(i).req.model == model && Call(i).req.amount == amount
      modifies db
      ensures After(old(db.history), i, old(Call(i).req))
      ensures Call(i) == old(Call(i)).(pc := if r.Ok? then ReadUser else Stuck, seenModel := Call(i).seenModel,
                                       modelDone := r.Ok? || old(Call(i)).modelDone)
      ensures r.Ok? ==> r.value == Call(i).seenModel.earned + amount
      ensures r.Err? ==> r.error == DuplicateDocument || r.error == LockConflict(ModelWalletDocument)
    {
      var wallet := GetOrCreateModelWallet(i, model);
      if wallet.None? {
        return Err(DuplicateDocument);
      }
      var updated := db.SetEarned(i, model, wallet.value.version, wallet.value.earned + amount);
      if !updated {
        return Err(LockConflict(ModelWalletDocument));
      }
      return Ok(wallet.value.earned + amount);
    }

    /** What a settle that threw has left: nothing when it never locked the item; the model
        credited and the item held again when it lost the user wallet; nothing but the item
        locked, for ever, when it lost the model wallet or the race to create it; everything
        but the entry, the item settled, when the ledger refused the entry. */
    ghost predicate SettleThrew(i: nat, escrowId: EscrowId, e: WalletError)
      requires i < |db.calls|
      reads db
    {
      match e
      case LockConflict(UserWallet) => CreditedOnly(Call(i)) && Call(i).pc == Failed && ItemIs(escrowId, Held)
      case LockConflict(ModelWalletDocument) | DuplicateDocument =>
        LeftNothing(db.View(), i) && Call(i).pc == Stuck && ItemIs(escrowId, Settling)
      case MetadataRefused => Unrecorded(Call(i)) && Refuses(Call(i).req) && ItemIs(escrowId, Settled)
      case _ => LeftNothing(db.View(), i) && NotLocked(i, escrowId, e)
    }

    /** A settle that returns has credited the model, debited the user's escrow, and the
        item is settled; so has one that throws because its entry is refused. */
    method SettleEscrow(escrowId: EscrowId, model: ModelId, amount: int, key: Key, refused: bool)
      returns (r: Outcome<int>, i: nat)
      requires db.Valid() && Honest(db.View(), Settle(escrowId, model, amount, key, refused))
      modifies db
      ensures After(old(db.history), i, Settle(escrowId, model, amount, key, refused))
      ensures r.Ok? ==> Call(i).pc == Done && ItemIs(escrowId, Settled) && r.value == Call(i).seenModel.earned + amount
      ensures Committed(r) ==> refused == r.Err?
      ensures Committed(r) ==>
                var (u, m) := (Call(i).seen, Call(i).seenModel);
                && UserCommitted(db.View(), i, u, Wallet(u.available, u.escrow - amount, u.version + 1))
                && ModelCommitted(db.View(), i, model, m, ModelWallet(m.earned + amount, m.version + 1))
      ensures r.Err? ==> SettleThrew(i, escrowId, r.error)
    {
      var req := Settle(escrowId, model, amount, key, refused);
      var escrow;
      escrow, i := BeginRelease(req, SettleScope, Settling, escrowId, key);
      if escrow.Err? {
        return Err(escrow.error), i;
      }
      r := SettleHeld(i, escrowId, model, amount, escrow.value, key, refused);
    }

    /** A settle past its lock, with what the transition system knows of its end. */
    method SettleHeld(i: nat, escrowId: EscrowId, model: ModelId, amount: int, escrow: Item, key: Key, refused: bool)
      returns (r: Outcome<int>)
      requires db.Valid() && i < |db.calls| && amount > 0
      requires var req := Settle(escrowId, model, amount, key, refused);
               Call(i).req == req && Call(i) == Locking(NewOp(db.config, req).(pc := LockItem), escrow)
      modifies db
      ensures After(old(db.history), i, old(Call(i).req))
      ensures Committed(r) ==> Call(i).pc == CommittedPc(r) && ItemIs(escrowId, Settled) && refused == r.Err?
      ensures r.Ok? ==> r.value == Call(i).seenModel.earned + amount
      ensures Committed(r) ==>
                var (u, m) := (Call(i).seen, Call(i).seenModel);
                && UserCommitted(db.View(), i, u, Wallet(u.available, u.escrow - amount, u.version + 1))
                && ModelCommitted(db.View(), i, model, m, ModelWallet(m.earned + amount, m.version + 1))
      ensures r.Err? ==> SettleThrew(i, escrowId, r.error)
    {
      r := SettleLocked(i, escrowId, escrow.user, model, amount, key, refused);
      if Committed(r) {
        BothCommitted(i);
      }
      if r.Err? {
        SettleEnds(i, escrowId, r.error);
      }
    }

    /** A settle or partial settle that has committed everything is in the commit history. */
    lemma BothCommitted(i: nat)
      requires db.Valid() && i < |db.calls| && HasModel(Call(i).req) && (Call(i).pc == Done || Call(i).pc == EntryRefused)
      ensures var (op, u, m) := (Call(i), Call(i).seen, Call(i).seenModel);
              && UserCommitted(db.View(), i, u, Wallet(u.available + AvailableDelta(op), u.escrow + EscrowDelta(op.req),
                                                       u.version + 1))
              && ModelCommitted(db.View(), i, op.req.model, m, ModelWallet(m.earned + EarnedDelta(op.req), m.version + 1))
    {
      LeadsIsReachable(db.config, db.history, db.View());
      ThrowsCommitted(db.View(), i);
      CommitFound(db.View(), i);
    }

    method SettleLocked(i: nat, escrowId: EscrowId, user: UserId, model: ModelId, amount: int, key: Key, refused: bool)
      returns (r: Outcome<int>)
      requires db.Calling(i, ReadModel) && Call(i).req == Settle(escrowId, model, amount, key, refused) && amount > 0
      requires Call(i).item == Some(escrowId) && Call(i).user == user && !Call(i).userDone && !Call(i).modelDone
      modifies db
      ensures After(old(db.history), i, old(Call(i).req)) && Call(i).item == Some(escrowId)
      ensures Committed(r) ==> Call(i).pc == CommittedPc(r) && ItemIs(escrowId, Settled) && refused == r.Err?
      ensures r.Ok? ==> r.value == Call(i).seenModel.earned + amount
      ensures !Committed(r) ==> SettleEnded(i, escrowId, r.error)
    {
      var newEarned := CreditModel(i, model, amount);
      if newEarned.Err? {
        return Err(newEarned.error);
      }
      var wallet := UpdateUser(i, escrowId, user, 0, -amount);
      if wallet.Err? {
        return Err(wallet.error);
      }
      assert key + "" == key;
      var entry := Entry(key, Earned(model), amount, newEarned.value - amount, newEarned.value);
      var written := FinalizeOne(i, escrowId, Settled, entry, refused);
      return if written then Ok(newEarned.value) else Err(MetadataRefused);
    }

    /** How a settle past its lock ends without debiting the user, before it is known that a
        stuck call has left nothing. */
    ghost predicate SettleEnded(i: nat, escrowId: EscrowId, e: WalletError)
      requires i < |db.calls|
      reads db
    {
      !Call(i).userDone &&
      if Call(i).pc != Stuck then
        e == LockConflict(UserWallet) && Call(i).pc == Failed && Call(i).modelDone && ItemIs(escrowId, Held)
      else if Call(i).modelDone then e == WalletNotFound
      else e == DuplicateDocument || e == LockConflict(ModelWalletDocument)
    }

    lemma SettleEnds(i: nat, escrowId: EscrowId, e: WalletError)
      requires db.Valid() && i < |db.calls| && Call(i).req.Settle? && Call(i).item == Some(escrowId)
      requires if e == MetadataRefused then Call(i).pc == EntryRefused && ItemIs(escrowId, Settled)
               else SettleEnded(i, escrowId, e)
      ensures SettleThrew(i, escrowId, e)
    {
      if Call(i).pc == Stuck {
        StuckEnds(i, escrowId);
      } else if Call(i).pc == EntryRefused {
        RefusedEnds(i);
      }
    }

    /** A call whose entry was refused has committed and is in no ledger entry. */
    lemma RefusedEnds(i: nat)
      requires db.Valid() && i < |db.calls| && Call(i).pc == EntryRefused
      ensures Unrecorded(Call(i)) && Refuses(Call(i).req)
    {
      LeadsIsReachable(db.config, db.history, db.View());
      RefusedLeaves(db.View(), i);
      ThrowsCommitted(db.View(), i);
    }

    /** A stuck call has left nothing but its item in the intermediate status. */
    lemma StuckEnds(i: nat, escrowId: EscrowId)
      requires db.Valid() && i < |db.calls| && Call(i).pc == Stuck && Call(i).item == Some(escrowId)
      ensures (Call(i).req.Settle? || Call(i).req.Partial?) && !Call(i).userDone && !Call(i).modelDone
      ensures LeftNothing(db.View(), i) && ItemIs(escrowId, BusyStatus(Call(i).req))
    {
      LeadsIsReachable(db.config, db.history, db.View());
      StuckIsClean(db.View(), i);
      Uncommitted(db.View(), i);
      StuckIsLocked(db.View(), i);
    }

    /** What a refund that threw has left: nothing, with the item held again when it had been
        locked; or everything but the entry, when the ledger refused the entry. */
    ghost predicate RefundThrew(i: nat, escrowId: EscrowId, e: WalletError)
      requires i < |db.calls|
      reads db
    {
      match e
      case LockConflict(UserWallet) => LeftNothing(db.View(), i) && Call(i).pc == Failed && ItemIs(escrowId, Held)
      case MetadataRefused => Unrecorded(Call(i)) && Refuses(Call(i).req) && ItemIs(escrowId, Refunded)
      case _ => LeftNothing(db.View(), i) && NotLocked(i, escrowId, e)
    }

    /** A refund that returns has moved the amount from escrow to available and the item is
        refunded; so has one that throws because its entry is refused. */
    method RefundEscrow(escrowId: EscrowId, user: UserId, amount: int, key: Key, refused: bool)
      returns (r: Outcome<int>, i: nat)
      requires db.Valid() && Honest(db.View(), Refund(escrowId, user, amount, key, refused))
      modifies db
      ensures After(old(db.history), i, Refund(escrowId, user, amount, key, refused))
      ensures r.Ok? ==> Call(i).pc == Done && ItemIs(escrowId, Refunded) && r.value == Call(i).seen.available + amount
      ensures Committed(r) ==> refused == r.Err?
      ensures Committed(r) ==>
                var u := Call(i).seen;
                UserCommitted(db.View(), i, u, Wallet(u.available + amount, u.escrow - amount, u.version + 1))
      ensures r.Err? ==> RefundThrew(i, escrowId, r.error)
    {
      var escrow;
      escrow, i := BeginRelease(Refund(escrowId, user, amount, key, refused), RefundScope, Refunding, escrowId, key);
      if escrow.Err? {
        return Err(escrow.error), i;
      }
      r := RefundLocked(i, escrowId, user, amount, key, refused);
      RefundEnds(i, escrowId, r);
    }

    method RefundLocked(i: nat, escrowId: EscrowId, user: UserId, amount: int, key: Key, refused: bool)
      returns (r: Outcome<int>)
      requires db.Calling(i, ReadUser) && Call(i).req == Refund(escrowId, user, amount, key, refused) && amount > 0
      requires Call(i).item == Some(escrowId) && Call(i).user == user && !Call(i).userDone
      modifies db
      ensures After(old(db.history), i, old(Call(i).req)) && Call(i).modelDone == old(Call(i).modelDone)
      ensures Call(i).userDone == Committed(r) && Call(i).item == Some(escrowId)
      ensures Committed(r) ==> Call(i).pc == CommittedPc(r) && ItemIs(escrowId, Refunded) && refused == r.Err?
      ensures r.Ok? ==> r.value == Call(i).seen.available + amount
      ensures !Committed(r) && Call(i).pc != Stuck ==>
                r.error == LockConflict(UserWallet) && Call(i).pc == Failed && ItemIs(escrowId, Held)
    {
      var wallet := UpdateUser(i, escrowId, user, amount, -amount);
      if wallet.Err? {
        return Err(wallet.error);
      }
      assert key + "" == key;
      var newAvailable := wallet.value.available + amount;
      var entry := Entry(key, Available(user), amount, wallet.value.available, newAvailable);
      var written := FinalizeOne(i, escrowId, Refunded, entry, refused);
      return if written then Ok(newAvailable) else Err(MetadataRefused);
    }

    lemma RefundEnds(i: nat, escrowId: EscrowId, r: Outcome<int>)
      requires db.Valid() && i < |db.calls| && Call(i).req.Refund? && Call(i).item == Some(escrowId) && !Call(i).modelDone
      requires Call(i).userDone == Committed(r)
      requires Committed(r) ==> Call(i).pc == CommittedPc(r) && ItemIs(escrowId, Refunded)
      requires !Committed(r) && Call(i).pc != Stuck ==>
                 r.error == LockConflict(UserWallet) && Call(i).pc == Failed && ItemIs(escrowId, Held)
      ensures r.Err? ==> RefundThrew(i, escrowId, r.error)
      ensures Committed(r) ==>
                UserCommitted(db.View(), i, Call(i).seen,
                              Wallet(Call(i).seen.available + Call(i).req.amount, Call(i).seen.escrow - Call(i).req.amount,
                                     Call(i).seen.version + 1))
    {
      LeadsIsReachable(db.config, db.history, db.View());
      if Call(i).pc == Stuck {
        StuckIsClean(db.View(), i);
      }
      if Call(i).userDone {
        CommitFound(db.View(), i);
        if r.Err? {
          RefusedEnds(i);
        }
      } else {
        Uncommitted(db.View(), i);
      }
    }

    method ReadBoth(i: nat, user: UserId, model: ModelId) returns (r: Outcome<(Wallet, ModelWallet)>)
      requires db.Calling(i, ReadUser) && Call(i).req.Partial? && Call(i).user == user && Call(i).req.model == model
      modifies db
      ensures After(old(db.history), i, old(Call(i).req))
      ensures Call(i) == if r.Ok? then old(Call(i)).(pc := CasUser, seen := r.value.0, seenModel := r.value.1)
                         else old(Call(i)).(pc := Stuck, seen := Call(i).seen)
      ensures r.Err? ==> r.error == DuplicateDocument
    {
      var wallet := db.FindWallet(i, user);
      if wallet.None? {
        return Err(WalletNotFound);
      }
      var modelWallet := GetOrCreateModelWallet(i, model);
      if modelWallet.None? {
        return Err(DuplicateDocument);
      }
      return Ok((wallet.value, modelWallet.value));
    }

    /** The two updates of a partial settle. A lost model wallet puts the item back although
        the user has been debited. */
    method UpdateBoth(i: nat, escrowId: EscrowId, user: UserId, model: ModelId, wallet: Wallet, modelWallet: ModelWallet,
                      refund: int, settle: int, held: int)
      returns (lost: Option<Resource>)
      requires db.Calling(i, CasUser) && Call(i).req.Partial? && Call(i).user == Call(i).req.user == user
      requires Call(i).req.model == model && Call(i).req.refund == refund && Call(i).req.settle == settle
      requires held == refund + settle && Call(i).item == Some(escrowId) && !Call(i).userDone && !Call(i).modelDone
      requires Call(i).seen == wallet && Call(i).seenModel == modelWallet
      modifies db
      ensures After(old(db.history), i, old(Call(i).req))
      ensures Call(i) == old(Call(i)).(pc := if lost.None? then FinalizeItem else Failed,
                                       userDone := lost != Some(UserWallet), modelDone := lost.None?)
      ensures lost.Some? ==> ItemIs(escrowId, Held)
    {
      var updated := db.IncBalances(i, user, wallet.version, None, refund, -held);
      if !updated {
        db.SetStatus(i, escrowId, Held);
        return Some(UserWallet);
      }
      updated := db.SetEarned(i, model, modelWallet.version, modelWallet.earned + settle);
      if !updated {
        db.SetStatus(i, escrowId, Held);
        return Some(ModelWalletDocument);
      }
      return None;
    }

    /** Sets the final status and writes an entry for each positive part. */
    method FinalizePartial(i: nat, escrowId: EscrowId, user: UserId, model: ModelId, wallet: Wallet, modelWallet: ModelWallet,
                           refund: int, settle: int, key: Key, refused: bool)
      returns (r: Outcome<PartialResponse>)
      requires db.Calling(i, FinalizeItem) && Call(i).item == Some(escrowId) && Call(i).user == user
      requires Call(i).req == Partial(escrowId, user, model, refund, settle, key, refused) && refund >= 0 && settle >= 0
      requires Call(i).seen == wallet && Call(i).seenModel == modelWallet && refund + settle > 0
      modifies db
      ensures After(old(db.history), i, old(Call(i).req))
      ensures r == if refused then Err(MetadataRefused)
                   else Ok(PartialResponse(wallet.available + refund, modelWallet.earned + settle))
      ensures Call(i) == old(Call(i)).(pc := CommittedPc(r), first := Call(i).first, second := Call(i).second)
      ensures ItemIs(escrowId, Settled)
    {
      db.SetStatus(i, escrowId, Settled);
      ghost var (past, before) := (db.history, db.View());
      var written := WritePartialEntries(i, user, model, wallet.available, modelWallet.earned, refund, settle, key, refused);
      StillFinal(db.config, past, before, db.history, db.View(), escrowId);
      if !written {
        return Err(MetadataRefused);
      }
      return Ok(PartialResponse(wallet.available + refund, modelWallet.earned + settle));
    }

    method WritePartialEntries(i: nat, user: UserId, model: ModelId, available: int, earned: int, refund: int, settle: int,
                               key: Key, refused: bool)
      returns (written: bool)
      requires db.Calling(i, WriteFirst) && Call(i).user == user && Call(i).req.Partial? && Call(i).req.key == key
      requires refund + settle > 0 && refused == Call(i).req.refused
      requires Call(i).req.model == model && Call(i).req.refund == refund >= 0 && Call(i).req.settle == settle >= 0
      requires Call(i).seen.available == available && Call(i).seenModel.earned == earned
      modifies db
      ensures After(old(db.history), i, old(Call(i).req))
      ensures Call(i) == old(Call(i)).(pc := if written then Done else EntryRefused,
                                       first := Call(i).first, second := Call(i).second)
      ensures written == !refused
    {
      if refund > 0 {
        var entry := Entry(key + "_refund", Available(user), refund, available, available + refund);
        var fate := db.CreateEntry(i, entry, refused);
        if fate.None? {
          return false;
        }
      } else {
        db.SkipEntry(i);
      }
      written := WriteSettledPart(i, model, earned, settle, key, refused);
    }

    method WriteSettledPart(i: nat, model: ModelId, earned: int, settle: int, key: Key, refused: bool)
      returns (written: bool)
      requires db.Calling(i, WriteSecond) && Call(i).req.Partial? && Call(i).req.key == key && Call(i).req.refused == refused
      requires Call(i).req.model == model && Call(i).req.settle == settle >= 0 && Call(i).seenModel.earned == earned
      requires refused ==> settle > 0
      modifies db
      ensures After(old(db.history), i, old(Call(i).req)) && written == !refused
      ensures Call(i) == old(Call(i)).(pc := if written then Done else EntryRefused, second := Call(i).second)
    {
      if settle > 0 {
        var entry := Entry(key + "_settle", Earned(model), settle, earned, earned + settle);
        var fate := db.CreateEntry(i, entry, refused);
        return fate.Some?;
      }
      db.SkipEntry(i);
      return true;
    }

    /** What a partial settle that threw has left: nothing when it never locked the item;
        nothing and the item held again when it lost the user wallet; the user debited, no
        model credited and the item held again when it lost the model wallet; nothing but
        the item locked, for ever, when the parts do not sum to its amount or another call
        created the model wallet first; everything but an entry, the item settled, when the
        ledger refused the entry. */
    ghost predicate PartialThrew(i: nat, escrowId: EscrowId, e: WalletError)
      requires i < |db.calls|
      reads db
    {
      match e
      case LockConflict(UserWallet) => LeftNothing(db.View(), i) && Call(i).pc == Failed && ItemIs(escrowId, Held)
      case LockConflict(ModelWalletDocument) => Lost(Call(i)) && ItemIs(escrowId, Held)
      case AmountsDiffer | DuplicateDocument =>
        LeftNothing(db.View(), i) && Call(i).pc == Stuck && ItemIs(escrowId, PartialSettling)
      case MetadataRefused => Unrecorded(Call(i)) && Refuses(Call(i).req) && ItemIs(escrowId, Settled)
      case _ => LeftNothing(db.View(), i) && NotLocked(i, escrowId, e)
    }

    /** A partial settle that returns has committed both sides and the item is settled; so has
        one that throws because its first entry is refused. */
    method PartialSettleEscrow(escrowId: EscrowId, user: UserId, model: ModelId, refund: int, settle: int, key: Key,
                               refused: bool)
      returns (r: Outcome<PartialResponse>, i: nat)
      requires db.Valid() && Honest(db.View(), Partial(escrowId, user, model, refund, settle, key, refused))
      modifies db
      ensures After(old(db.history), i, Partial(escrowId, user, model, refund, settle, key, refused))
      ensures r.Ok? ==> Call(i).pc == Done && ItemIs(escrowId, Settled)
      ensures r.Ok? ==> r.value == PartialResponse(Call(i).seen.available + refund, Call(i).seenModel.earned + settle)
      ensures Committed(r) ==> refused == r.Err?
      ensures Committed(r) ==>
                var (u, m) := (Call(i).seen, Call(i).seenModel);
                && UserCommitted(db.View(), i, u, Wallet(u.available + refund, u.escrow - refund - settle, u.version + 1))
                && ModelCommitted(db.View(), i, model, m, ModelWallet(m.earned + settle, m.version + 1))
      ensures r.Err? ==> PartialThrew(i, escrowId, r.error)
    {
      var req := Partial(escrowId, user, model, refund, settle, key, refused);
      var escrow;
      escrow, i := BeginRelease(req, PartialScope, PartialSettling, escrowId, key);
      if escrow.Err? {
        return Err(escrow.error), i;
      }
      r := PartialHeld(i, escrowId, user, model, refund, settle, escrow.value, key, refused);
    }

    /** A partial settle past its lock, with what the transition system knows of its end. */
    method PartialHeld(i: nat, escrowId: EscrowId, user: UserId, model: ModelId, refund: int, settle: int, escrow: Item,
                       key: Key, refused: bool)
      returns (r: Outcome<PartialResponse>)
      requires db.Valid() && i < |db.calls| && refund >= 0 && settle >= 0 && escrow.amount > 0
      requires var req := Partial(escrowId, user, model, refund, settle, key, refused);
               Call(i).req == req && Call(i) == Locking(NewOp(db.config, req).(pc := LockItem), escrow)
      modifies db
      ensures After(old(db.history), i, old(Call(i).req))
      ensures Committed(r) ==> Call(i).pc == CommittedPc(r) && ItemIs(escrowId, Settled) && refused == r.Err?
      ensures r.Ok? ==> r.value == PartialResponse(Call(i).seen.available + refund, Call(i).seenModel.earned + settle)
      ensures Committed(r) ==>
                var (u, m) := (Call(i).seen, Call(i).seenModel);
                && UserCommitted(db.View(), i, u, Wallet(u.available + refund, u.escrow - refund - settle, u.version + 1))
                && ModelCommitted(db.View(), i, model, m, ModelWallet(m.earned + settle, m.version + 1))
      ensures r.Err? ==> PartialThrew(i, escrowId, r.error)
    {
      r := PartialLocked(i, escrowId, user, model, refund, settle, escrow.amount, key, refused);
      if Committed(r) {
        BothCommitted(i);
      }
      if r.Err? {
        PartialEnds(i, escrowId, r.error);
      }
    }

    /** How a partial settle past its lock may end, before it is known that a stuck call
        has left nothing and a refused one is in no entry. */
    ghost predicate PartialEnded(i: nat, escrowId: EscrowId, e: WalletError)
      requires i < |db.calls|
      reads db
    {
      match e
      case LockConflict(UserWallet) => Call(i).pc == Failed && !Call(i).userDone && !Call(i).modelDone && ItemIs(escrowId, Held)
      case LockConflict(ModelWalletDocument) => Lost(Call(i)) && !Call(i).modelDone && ItemIs(escrowId, Held)
      case MetadataRefused => Call(i).pc == EntryRefused && ItemIs(escrowId, Settled)
      case _ => Call(i).pc == Stuck && (e == AmountsDiffer || e == DuplicateDocument)
    }

    /** A partial settle past its lock. */
    method PartialLocked(i: nat, escrowId: EscrowId, user: UserId, model: ModelId, refund: int, settle: int, held: int,
                         key: Key, refused: bool)
      returns (r: Outcome<PartialResponse>)
      requires db.Valid() && i < |db.calls| && Call(i).req == Partial(escrowId, user, model, refund, settle, key, refused)
      requires Call(i).pc == (if refund + settle == held then ReadUser else Stuck) && Call(i).user == user
      requires refund >= 0 && settle >= 0 && held > 0
      requires Call(i).item == Some(escrowId) && !Call(i).userDone && !Call(i).modelDone
      modifies db
      ensures After(old(db.history), i, old(Call(i).req)) && Call(i).item == Some(escrowId)
      ensures Committed(r) ==> Call(i).pc == CommittedPc(r) && ItemIs(escrowId, Settled) && refused == r.Err?
      ensures r.Ok? ==> r.value == PartialResponse(Call(i).seen.available + refund, Call(i).seenModel.earned + settle)
      ensures r.Err? ==> PartialEnded(i, escrowId, r.error)
    {
      if refund + settle != held {
        return Err(AmountsDiffer);
      }
      var read := ReadBoth(i, user, model);
      if read.Err? {
        return Err(read.error);
      }
      r := PartialRead(i, escrowId, user, model, read.value.0, read.value.1, refund, settle, key, refused);
    }

    /** A partial settle that has read both wallets. */
    method PartialRead(i: nat, escrowId: EscrowId, user: UserId, model: ModelId, wallet: Wallet, modelWallet: ModelWallet,
                       refund: int, settle: int, key: Key, refused: bool)
      returns (r: Outcome<PartialResponse>)
      requires db.Calling(i, CasUser) && Call(i).req == Partial(escrowId, user, model, refund, settle, key, refused)
      requires Call(i).user == user && Call(i).seen == wallet && Call(i).seenModel == modelWallet
      requires refund >= 0 && settle >= 0 && refund + settle > 0
      requires Call(i).item == Some(escrowId) && !Call(i).userDone && !Call(i).modelDone
      modifies db
      ensures After(old(db.history), i, old(Call(i).req)) && Call(i).item == Some(escrowId)
      ensures Committed(r) ==> Call(i).pc == CommittedPc(r) && ItemIs(escrowId, Settled) && refused == r.Err?
      ensures r.Ok? ==> r.value == PartialResponse(Call(i).seen.available + refund, Call(i).seenModel.earned + settle)
      ensures r.Err? ==> PartialEnded(i, escrowId, r.error)
    {
      var lost := UpdateBoth(i, escrowId, user, model, wallet, modelWallet, refund, settle, refund + settle);
      if lost.Some? {
        return Err(LockConflict(lost.value));
      }
      r := FinalizePartial(i, escrowId, user, model, wallet, modelWallet, refund, settle, key, refused);
    }

    lemma PartialEnds(i: nat, escrowId: EscrowId, e: WalletError)
      requires db.Valid() && i < |db.calls| && Call(i).req.Partial? && Call(i).item == Some(escrowId)
      requires PartialEnded(i, escrowId, e)
      ensures PartialThrew(i, escrowId, e)
    {
      if Call(i).pc == Stuck {
        StuckEnds(i, escrowId);
      } else if Call(i).pc == EntryRefused {
        RefusedEnds(i);
      } else if !Call(i).userDone {
        LeadsIsReachable(db.config, db.history, db.View());
        Uncommitted(db.View(), i);
      }
    }

    // --------------------------------------------------------- direct award and deduct

    /** Where an award or deduction stands before attempt `n`. */
    ghost predicate Attempting(i: nat, req: Request, n: nat)
      requires req.Award? || req.Deduct?
      reads db
    {
      && db.Valid() && i < |db.calls|
      && var op := db.calls[i];
         && op.req == req && op.user == req.user && op.attempts == n <= db.config.maxAttempts && !op.userDone && !op.modelDone
         && op.pc == if n < db.config.maxAttempts && Admissible(db.config, req) then ReadUser else Failed
    }

    /** How an award or deduction ends when it throws: after its commit when its entry is
        refused; else with nothing committed, because its amount is out of bounds, because the
        balance a deduction read was too low, because every attempt lost its wallet, because a
        deduction found no wallet or an award could not create one. */
    ghost predicate DirectThrew(i: nat, e: WalletError, refused: bool)
      requires i < |db.calls| && (Call(i).req.Award? || Call(i).req.Deduct?)
      reads db
    {
      match e
      case MetadataRefused => refused && Call(i).pc == EntryRefused && Call(i).userDone
      case InvalidAmount => Call(i).pc == Failed && !(1 <= Call(i).req.amount <= db.config.maxAmount)
      case InsufficientBalance(required, available) =>
        && Call(i).pc == Failed && Call(i).req.Deduct? && required == Call(i).req.amount
        && available == Call(i).seen.available < required
      case LockConflict(UserWallet) => Call(i).pc == Failed && Call(i).attempts == db.config.maxAttempts
      case WalletNotFound => Call(i).pc == Failed && Call(i).req.Deduct?
      case DuplicateDocument => Call(i).pc == Failed && Call(i).req.Award?
      case _ => false
    }

    /** How an award or deduction ends: it returns the balance it has left, or throws. */
    ghost predicate DirectEnded(i: nat, r: Outcome<int>, refused: bool)
      requires i < |db.calls| && (Call(i).req.Award? || Call(i).req.Deduct?)
      reads db
    {
      match r
      case Ok(newBalance) =>
        && Call(i).pc == Done && Call(i).userDone && !refused
        && newBalance == Call(i).seen.available + AvailableDelta(Call(i))
      case Err(e) => DirectThrew(i, e, refused)
    }

    /** The update of an award or deduction; a lost wallet puts it before its next attempt. */
    method IncDirect(i: nat, wallet: Wallet, user: UserId, minimum: Option<int>, change: int) returns (updated: bool)
      requires db.Calling(i, CasUser) && (Call(i).req.Award? || Call(i).req.Deduct?) && Call(i).user == user
      requires wallet == Call(i).seen && change == AvailableDelta(Call(i))
      requires minimum == if Call(i).req.Deduct? then Some(Call(i).req.amount) else None
      requires Call(i).attempts < db.config.maxAttempts && Admissible(db.config, Call(i).req)
      requires Call(i).user == Call(i).req.user && !Call(i).userDone && !Call(i).modelDone
      modifies db
      ensures After(old(db.history), i, old(Call(i).req))
      ensures updated ==> Call(i) == old(Call(i)).(pc := WriteFirst, userDone := true)
      ensures !updated ==> Attempting(i, old(Call(i).req), old(Call(i).attempts) + 1)
    {
      updated := db.IncBalances(i, user, wallet.version, minimum, change, 0);
    }

    /** The one entry of an award or deduction. */
    method WriteDirectEntry(i: nat, available: int, user: UserId, change: int, key: Key, refused: bool)
      returns (newBalance: Outcome<int>)
      requires db.Calling(i, WriteFirst) && (Call(i).req.Award? || Call(i).req.Deduct?) && Call(i).user == user
      requires Call(i).seen.available == available && change == AvailableDelta(Call(i)) != 0 && key == Call(i).req.key
      requires refused == Call(i).req.refused && Call(i).userDone
      modifies db
      ensures After(old(db.history), i, old(Call(i).req)) && DirectEnded(i, newBalance, refused)
    {
      assert key + "" == key;
      var fate := db.CreateEntry(i, Entry(key, Available(user), change, available, available + change), refused);
      return if fate.Some? then Ok(available + change) else Err(MetadataRefused);
    }

    /** Validates the amount and reads the wallet. */
    method ReadToAward(i: nat, user: UserId, amount: int) returns (r: Outcome<Wallet>)
      requires db.Valid() && i < |db.calls| && Call(i).req.Award? && Call(i).req.amount == amount && Call(i).user == user
      requires db.config.maxAttempts > 0 && Call(i).pc == if Admissible(db.config, Call(i).req) then ReadUser else Failed
      modifies db
      ensures After(old(db.history), i, old(Call(i).req))
      ensures r.Ok? ==> Admissible(db.config, Call(i).req) && Call(i) == old(Call(i)).(pc := CasUser, seen := r.value)
      ensures r.Err? ==> DirectThrew(i, r.error, Call(i).req.refused) && r.error != MetadataRefused
    {
      if amount <= 0 || amount > db.config.maxAmount {
        return Err(InvalidAmount);
      }
      var wallet := GetOrCreateWallet(i, user);
      return if wallet.Some? then Ok(wallet.value) else Err(DuplicateDocument);
    }

    /** One attempt; None when its wallet was lost. */
    method AwardOnce(i: nat, user: UserId, amount: int, key: Key, refused: bool, retryCount: nat)
      returns (r: Option<Outcome<int>>)
      requires Attempting(i, Award(user, amount, key, refused), retryCount) && retryCount < db.config.maxAttempts
      modifies db
      ensures After(old(db.history), i, old(Call(i).req))
      ensures r.None? ==> Attempting(i, old(Call(i).req), retryCount + 1)
      ensures r.Some? ==> DirectEnded(i, r.value, refused)
    {
      var wallet := ReadToAward(i, user, amount);
      if wallet.Err? {
        return Some(Err(wallet.error));
      }
      var updated := IncDirect(i, wallet.value, user, None, amount);
      if !updated {
        return None;
      }
      var newBalance := WriteDirectEntry(i, wallet.value.available, user, amount, key, refused);
      return Some(newBalance);
    }

    /** One attempt, and on a lost wallet the next, up to the bound. */
    method AwardAttempt(i: nat, user: UserId, amount: int, key: Key, refused: bool, retryCount: nat) returns (r: Outcome<int>)
      requires Attempting(i, Award(user, amount, key, refused), retryCount)
      modifies db
      ensures After(old(db.history), i, old(Call(i).req))
      ensures DirectEnded(i, r, refused)
      decreases db.config.maxAttempts - retryCount
    {
      if retryCount >= db.config.maxAttempts {
        return Err(LockConflict(UserWallet));
      }
      var once := AwardOnce(i, user, amount, key, refused, retryCount);
      if once.Some? {
        return once.value;
      }
      r := AwardAttempt(i, user, amount, key, refused, retryCount + 1);
    }

    method AwardPoints(user: UserId, amount: int, key: Key, refused: bool) returns (r: Outcome<int>, i: nat)
      requires db.Valid()
      modifies db
      ensures After(old(db.history), i, Award(user, amount, key, refused))
      ensures Committed(r) ==> refused == r.Err?
      ensures Committed(r) ==>
                var u := Call(i).seen;
                UserCommitted(db.View(), i, u, Wallet(u.available + amount, u.escrow, u.version + 1))
      ensures r.Ok? ==> r.value == Call(i).seen.available + amount
      ensures r.Err? ==> DirectThrew(i, r.error, refused)
      ensures r.Err? ==> if r.error == MetadataRefused then Unrecorded(Call(i)) else LeftNothing(db.View(), i)
    {
      i := db.Begin(Award(user, amount, key, refused));
      r := AwardAttempt(i, user, amount, key, refused, 0);
      DirectEnds(i);
    }

    lemma DirectEnds(i: nat)
      requires db.Valid() && i < |db.calls| && (Call(i).req.Award? || Call(i).req.Deduct?) && Terminal(Call(i).pc)
      ensures Call(i).pc == Done || Call(i).pc == EntryRefused ==>
                var (u, d) := (Call(i).seen, AvailableDelta(Call(i)));
                && UserCommitted(db.View(), i, u, Wallet(u.available + d, u.escrow, u.version + 1))
                && (Call(i).req.Deduct? ==> u.available + d >= 0)
      ensures Call(i).pc == EntryRefused ==> Unrecorded(Call(i))
      ensures Threw(Call(i).pc) && Call(i).pc != EntryRefused ==> LeftNothing(db.View(), i)
    {
      LeadsIsReachable(db.config, db.history, db.View());
      if Threw(Call(i).pc) {
        DirectFailsCleanly(db.View(), i);
      }
      if Call(i).pc == EntryRefused {
        RefusedEnds(i);
      }
      if Call(i).pc == Done || Call(i).pc == EntryRefused {
        ThrowsCommitted(db.View(), i);
        CommitFound(db.View(), i);
      }
    }

    /** Validates the amount and reads the wallet, which must cover it. */
    method ReadToDeduct(i: nat, user: UserId, amount: int) returns (r: Outcome<Wallet>)
      requires db.Valid() && i < |db.calls| && Call(i).req.Deduct? && Call(i).req.amount == amount && Call(i).user == user
      requires db.config.maxAttempts > 0 && Call(i).pc == if Admissible(db.config, Call(i).req) then ReadUser else Failed
      modifies db
      ensures After(old(db.history), i, old(Call(i).req))
      ensures r.Ok? ==> Admissible(db.config, Call(i).req) && Call(i) == old(Call(i)).(pc := CasUser, seen := r.value)
      ensures r.Err? ==> DirectThrew(i, r.error, Call(i).req.refused) && r.error != MetadataRefused
    {
      if amount <= 0 || amount > db.config.maxAmount {
        return Err(InvalidAmount);
      }
      var wallet := db.FindWallet(i, user);
      if wallet.None? {
        return Err(WalletNotFound);
      }
      if wallet.value.available < amount {
        return Err(InsufficientBalance(amount, wallet.value.available));
      }
      return Ok(wallet.value);
    }

    /** One attempt; None when its wallet was lost. */
    method DeductOnce(i: nat, user: UserId, amount: int, key: Key, refused: bool, retryCount: nat)
      returns (r: Option<Outcome<int>>)
      requires Attempting(i, Deduct(user, amount, key, refused), retryCount) && retryCount < db.config.maxAttempts
      modifies db
      ensures After(old(db.history), i, old(Call(i).req))
      ensures r.None? ==> Attempting(i, old(Call(i).req), retryCount + 1)
      ensures r.Some? ==> DirectEnded(i, r.value, refused)
    {
      var wallet := ReadToDeduct(i, user, amount);
      if wallet.Err? {
        return Some(Err(wallet.error));
      }
      var updated := IncDirect(i, wallet.value, user, Some(amount), -amount);
      if !updated {
        return None;
      }
      var newBalance := WriteDirectEntry(i, wallet.value.available, user, -amount, key, refused);
      return Some(newBalance);
    }

    /** One attempt, and on a lost wallet the next, up to the bound. */
    method DeductAttempt(i: nat, user: UserId, amount: int, key: Key, refused: bool, retryCount: nat) returns (r: Outcome<int>)
      requires Attempting(i, Deduct(user, amount, key, refused), retryCount)
      modifies db
      ensures After(old(db.history), i, old(Call(i).req))
      ensures DirectEnded(i, r, refused)
      decreases db.config.maxAttempts - retryCount
    {
      if retryCount >= db.config.maxAttempts {
        return Err(LockConflict(UserWallet));
      }
      var once := DeductOnce(i, user, amount, key, refused, retryCount);
      if once.Some? {
        return once.value;
      }
      r := DeductAttempt(i, user, amount, key, refused, retryCount + 1);
    }

    method DeductFromAvailable(user: UserId, amount: int, key: Key, refused: bool) returns (r: Outcome<int>, i: nat)
      requires db.Valid()
      modifies db
      ensures After(old(db.history), i, Deduct(user, amount, key, refused))
      ensures Committed(r) ==> refused == r.Err? && Call(i).seen.available >= amount
      ensures Committed(r) ==>
                var u := Call(i).seen;
                UserCommitted(db.View(), i, u, Wallet(u.available - amount, u.escrow, u.version + 1))
      ensures r.Ok? ==> r.value == Call(i).seen.available - amount
      ensures r.Err? ==> DirectThrew(i, r.error, refused)
      ensures r.Err? ==> if r.error == MetadataRefused then Unrecorded(Call(i)) else LeftNothing(db.View(), i)
    {
      i := db.Begin(Deduct(user, amount, key, refused));
      r := DeductAttempt(i, user, amount, key, refused, 0);
      DirectEnds(i);
    }
  }
}
