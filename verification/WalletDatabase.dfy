/** The database the wallet services share, one method for each atomic database call.
    Before every call any number of steps of other calls take place. The database keeps
    beside its collections the record of every call in progress, which no statement of a
    service reads, so that what a service does is tied step by step to the transition
    system. */
module WalletDatabase {
  import opened Options
  import opened EscrowProtocol
  import opened EscrowLocal
  import opened EscrowSteps
  import opened EscrowItems
  import opened EscrowTheorems
  import opened EscrowStuck

  /** Generated ids name no document and no call. */
  ghost predicate Unique(uuid: State -> EscrowId) { forall s :: FreshId(s, uuid(s)) }

  /** A step of another call leaves a call's record alone. */
  lemma OthersKeep(s: State, a: Action, i: nat)
    requires i < |s.ops| && (a.Run? ==> a.i != i)
    ensures |s.ops| <= |Step(s, a).ops| && Step(s, a).ops[i] == s.ops[i] && Step(s, a).config == s.config
  {
  }

  /** What a compare-and-swap of a user wallet leads to when it is won. */
  function Won(op: Op): Op {
    op.(userDone := true,
        pc := if op.req.Settle? || op.req.Refund? then FinalizeItem else if op.req.Partial? then CasModel else WriteFirst)
  }

  /** What a compare-and-swap of a model wallet leads to when it is won. */
  function Credited(op: Op): Op {
    op.(modelDone := true, pc := if op.req.Settle? then ReadUser else FinalizeItem)
  }

  /** A call that has locked its item; `item` is the document before the lock. */
  function Locking(op: Op, item: Item): Op {
    op.(pc := match op.req
              case Settle(_, _, _, _, _) => ReadModel
              case Partial(_, _, _, refund, settle, _, _) => if refund + settle == item.amount then ReadUser else Stuck
              case _ => ReadUser,
        user := if op.req.Settle? then item.user else op.user)
  }

  /** A hold that has deleted its item after losing its wallet. */
  function Retried(cfg: Config, op: Op): Op {
    if op.attempts + 1 < cfg.maxAttempts then
      op.(pc := ReadUser, attempts := op.attempts + 1, slept := op.slept + Backoff(cfg.backoffMs, op.attempts + 1))
    else op.(pc := Failed)
  }

  /** A call whose entry is in the ledger, by itself or as a duplicate. */
  function Entered(op: Op, fate: Fate): Op {
    if op.pc == WriteSecond then op.(second := fate, pc := Done)
    else op.(first := fate, pc := if HasSecond(op.req) then WriteSecond else Done)
  }

  function Absent(op: Op): Op {
    op.(pc := if op.req.Hold? || op.req.Award? then CreateUser else if IsRelease(op.req) then Stuck else Failed)
  }

  /** The other collections are as they were. */
  predicate OnlyWallets(s: State, s': State) {
    s'.models == s.models && s'.escrows == s.escrows && s'.claims == s.claims && s'.ledger == s.ledger
  }

  predicate OnlyModels(s: State, s': State) {
    s'.wallets == s.wallets && s'.escrows == s.escrows && s'.claims == s.claims && s'.ledger == s.ledger
  }

  predicate UserMatches(s: State, op: Op) {
    op.user in s.wallets && s.wallets[op.user].version == op.seen.version
    && (op.req.Deduct? ==> s.wallets[op.user].available >= op.req.amount)
  }

  /** What the next step does when it is a compare-and-swap of the user wallet. */
  lemma UserSwap(s: State, i: nat)
    requires i < |s.ops| && s.ops[i].pc == CasUser
    ensures var (op, (op', write)) := (s.ops[i], Advance(s, i, "", 0));
            var s' := Perform(s, i, op', write);
            && OnlyWallets(s, s')
            && if UserMatches(s, op)
               then op' == Won(op) && s'.wallets == s.wallets[op.user := UserAfter(op, s.wallets[op.user])]
               else op' == LoseUser(s.config, op) && s'.wallets == s.wallets
  {
  }

  predicate ModelMatches(s: State, op: Op)
    requires HasModel(op.req)
  {
    op.req.model in s.models && s.models[op.req.model].version == op.seenModel.version
  }

  /** What the next step does when it is a compare-and-swap of the model wallet. */
  lemma ModelSwap(s: State, i: nat)
    requires i < |s.ops| && s.ops[i].pc == CasModel && HasModel(s.ops[i].req)
    ensures var (op, (op', write)) := (s.ops[i], Advance(s, i, "", 0));
            var s' := Perform(s, i, op', write);
            && OnlyModels(s, s')
            && if ModelMatches(s, op)
               then op' == Credited(op)
                    && s'.models == s.models[op.req.model := ModelWallet(op.seenModel.earned + EarnedDelta(op.req),
                                                                         s.models[op.req.model].version + 1)]
               else op' == op.(pc := if op.req.Settle? then Stuck else ReleaseItem) && s'.models == s.models
  {
  }

  /** A call that puts its item back or finalizes it finds it in the database. */
  lemma OwnedItem(s: State, i: nat)
    requires Reachable(s) && i < |s.ops| && (s.ops[i].pc == ReleaseItem || s.ops[i].pc == FinalizeItem)
    ensures s.ops[i].item.Some? && s.ops[i].item.value in s.escrows
  {
    Invariants(s);
    assert CallOk(s, i) && Local(s.ops[i]);
  }

  /** A release that reads its user's wallet finds it. */
  lemma ReleaseFindsWallet(s: State, i: nat)
    requires Reachable(s) && i < |s.ops| && Owns(s.ops[i])
    ensures s.ops[i].user in s.wallets
  {
    AllPrepared(s, i);
  }

  /** An item that a release names agrees with its request. */
  lemma NamedItem(s: State, i: nat, id: EscrowId)
    requires Reachable(s) && i < |s.ops| && IsRelease(s.ops[i].req) && s.ops[i].item == Some(id) && id in s.escrows
    ensures Agrees(s.ops[i].req, s.escrows[id]) && s.escrows[id].amount > 0
  {
    Invariants(s);
    assert CallOk(s, i) && ItemOk(s, id);
  }

  class Database {
    const config: Config
    const uuid: State -> EscrowId
    var wallets: map<UserId, Wallet>
    var models: map<ModelId, ModelWallet>
    var escrows: map<EscrowId, Item>
    var claims: set<(Scope, Key)>
    var ledger: seq<Entry>
    var calls: seq<Op>
    var log: seq<Commit>
    ghost var history: seq<Action>

    constructor (config: Config, uuid: State -> EscrowId)
      requires Unique(uuid)
      ensures Valid() && calls == [] && history == [] && this.config == config
    {
      this.config, this.uuid := config, uuid;
      wallets, models, escrows, claims, ledger, calls, log := map[], map[], map[], {}, [], [], [];
      history := [];
      new;
      LeadsFromNothing(config);
    }

    function View(): State
      reads this
    {
      State(config, wallets, models, escrows, claims, ledger, calls, log)
    }

    /** The transition system's history leads to this database. */
    ghost predicate Valid()
      reads this
    {
      LeadsTo(config, history, View()) && Unique(uuid)
    }

    /** Call `i` is about to make the database call `pc`. */
    ghost predicate Calling(i: nat, pc: Pc)
      reads this
    {
      Valid() && i < |calls| && calls[i].pc == pc && !Terminal(pc)
    }

    /** The history has grown and call `i` is now `op`. */
    ghost predicate Reached(past: seq<Action>, i: nat, op: Op)
      reads this
    {
      Valid() && past <= history && i < |calls| && calls[i] == op
    }

    // ------------------------------------------------------------- the other calls

    /** Any number of steps of other calls, and of new ones. */
    method Interleave(i: nat)
      requires Valid() && i < |calls|
      modifies this
      ensures Reached(old(history), i, old(calls[i]))
    {
      var acts: seq<Action> := *;
      for k := 0 to |acts|
        invariant Reached(old(history), i, old(calls[i]))
      {
        if !(acts[k].Run? && acts[k].i == i) {
          OthersKeep(View(), acts[k], i);
          LeadsOn(config, history, View(), acts[k]);
          var s := Step(View(), acts[k]);
          wallets, models, escrows, claims, ledger, calls, log :=
            s.wallets, s.models, s.escrows, s.claims, s.ledger, s.ops, s.log;
          history := history + [acts[k]];
        }
      }
    }

    method Begin(req: Request) returns (i: nat)
      requires Valid() && Honest(View(), req)
      modifies this
      ensures Reached(old(history), i, NewOp(config, req))
    {
      LeadsOn(config, history, View(), EscrowProtocol.Begin(req));
      i := |calls|;
      calls := calls + [NewOp(config, req)];
      history := history + [EscrowProtocol.Begin(req)];
    }

    /** Completes the record of a step whose document has been written. */
    method Record(i: nat, before: State, newId: EscrowId)
      requires LeadsTo(config, history, before) && Unique(uuid)
      requires before.config == config && calls == before.ops && log == before.log
      requires Enabled(before, Run(i, newId, 0))
      requires var (op', write) := Advance(before, i, newId, 0);
               var s := Perform(before, i, op', write);
               wallets == s.wallets && models == s.models && escrows == s.escrows && claims == s.claims && ledger == s.ledger
      modifies this`calls, this`log, this`history
      ensures Reached(old(history), i, Advance(before, i, newId, 0).0)
    {
      LeadsOn(config, history, before, Run(i, newId, 0));
      var (op', write) := Advance(before, i, newId, 0);
      calls, log := calls[i := op'], log + Commits(i, before.ops[i], op', write);
      history := history + [Run(i, newId, 0)];
      assert View() == Perform(before, i, op', write);
    }

    /** Completes the record of a compare-and-swap of the user wallet. */
    method RecordUserSwap(i: nat, before: State)
      requires LeadsTo(config, history, before) && Unique(uuid)
      requires before.config == config && calls == before.ops && log == before.log
      requires i < |before.ops| && before.ops[i].pc == CasUser && OnlyWallets(before, View())
      requires var op := before.ops[i];
               wallets == if UserMatches(before, op)
                          then before.wallets[op.user := UserAfter(op, before.wallets[op.user])] else before.wallets
      modifies this`calls, this`log, this`history
      ensures var op := before.ops[i];
              Reached(old(history), i, if UserMatches(before, op) then Won(op) else LoseUser(config, op))
    {
      UserSwap(before, i);
      Record(i, before, "");
    }

    // -------------------------------------------------------------- database calls

    method ClaimIdempotency(i: nat, scope: Scope, key: Key) returns (claimed: bool)
      requires Calling(i, Claim) && (scope, key) == ClaimOf(calls[i].req)
      modifies this
      ensures var op := old(calls[i]);
              Reached(old(history), i,
                      op.(pc := if !claimed then Rejected else if IsRelease(op.req) then LockItem
                                else if config.maxAttempts > 0 then ReadUser else Failed))
    {
      Interleave(i);
      var before := View();
      claimed := (scope, key) !in claims;
      if claimed {
        claims := claims + {(scope, key)};
      }
      Record(i, before, "");
    }

    method FindWallet(i: nat, user: UserId) returns (found: Option<Wallet>)
      requires Calling(i, ReadUser) && user == calls[i].user && !calls[i].req.Expire?
      modifies this
      ensures var op := old(calls[i]);
              Reached(old(history), i, if found.Some? then AfterRead(op, found.value, 0) else Absent(op))
      ensures IsRelease(calls[i].req) && Owns(old(calls[i])) ==> found.Some?
    {
      Interleave(i);
      var before := View();
      LeadsIsReachable(config, history, before);
      if Owns(before.ops[i]) {
        ReleaseFindsWallet(before, i);
      }
      found := if user in wallets then Some(wallets[user]) else None;
      Record(i, before, "");
    }

    /** Creates an empty wallet; a second wallet for one user violates the unique index. */
    method CreateWallet(i: nat, user: UserId) returns (created: Option<Wallet>)
      requires Calling(i, CreateUser) && user == calls[i].user
      modifies this
      ensures var op := old(calls[i]);
              Reached(old(history), i, if created.Some? then AfterRead(op, created.value, 0) else op.(pc := Failed))
    {
      Interleave(i);
      var before := View();
      created := None;
      if user !in wallets {
        wallets := wallets[user := Wallet(0, 0, 0)];
        created := Some(wallets[user]);
      }
      Record(i, before, "");
    }

    method FindModelWallet(i: nat, model: ModelId) returns (found: Option<ModelWallet>)
      requires Calling(i, ReadModel) && HasModel(calls[i].req) && model == calls[i].req.model
      modifies this
      ensures var op := old(calls[i]);
              Reached(old(history), i, if found.Some? then AfterModelRead(op, found.value) else op.(pc := CreateModel))
    {
      Interleave(i);
      var before := View();
      found := if model in models then Some(models[model]) else None;
      Record(i, before, "");
    }

    method CreateModelWallet(i: nat, model: ModelId) returns (created: Option<ModelWallet>)
      requires Calling(i, CreateModel) && HasModel(calls[i].req) && model == calls[i].req.model
      modifies this
      ensures var op := old(calls[i]);
              Reached(old(history), i, if created.Some? then AfterModelRead(op, created.value) else op.(pc := Stuck))
    {
      Interleave(i);
      var before := View();
      created := None;
      if model !in models {
        models := models[model := ModelWallet(0, 0)];
        created := Some(models[model]);
      }
      Record(i, before, "");
    }

    /** Inserts a held item; a second item for one queue item violates the unique index. */
    method Insert(i: nat, user: UserId, amount: int, queueItem: QueueId) returns (inserted: Option<EscrowId>)
      requires Calling(i, InsertItem) && calls[i].req.Hold? && user == calls[i].user
      requires amount == calls[i].req.amount && queueItem == calls[i].req.queueItem
      modifies this
      ensures var op := old(calls[i]);
              Reached(old(history), i, if inserted.Some? then op.(pc := CasUser, item := inserted) else op.(pc := Failed))
    {
      Interleave(i);
      var before := View();
      var escrowId := uuid(before);
      inserted := None;
      if forall e :: e in escrows ==> escrows[e].queueItem != queueItem {
        escrows := escrows[escrowId := Item(user, amount, queueItem, Held, i, None)];
        inserted := Some(escrowId);
      }
      Record(i, before, escrowId);
    }

    method SetIfCurrent(user: UserId, version: nat, available: int, escrow: int) returns (updated: bool)
      modifies this`wallets
      ensures updated == (user in old(wallets) && old(wallets)[user].version == version)
      ensures wallets == if updated then old(wallets)[user := Wallet(available, escrow, version + 1)] else old(wallets)
    {
      updated := user in wallets && wallets[user].version == version;
      if updated {
        wallets := wallets[user := Wallet(available, escrow, version + 1)];
      }
    }

    method IncIfCurrent(user: UserId, version: nat, minimum: Option<int>, available: int, escrow: int) returns (updated: bool)
      modifies this`wallets
      ensures updated == (user in old(wallets) && old(wallets)[user].version == version
                          && (minimum.Some? ==> old(wallets)[user].available >= minimum.value))
      ensures !updated ==> wallets == old(wallets)
      ensures updated ==>
                var found := old(wallets)[user];
                wallets == old(wallets)[user := Wallet(found.available + available, found.escrow + escrow, version + 1)]
    {
      updated := user in wallets && wallets[user].version == version
                 && (minimum.Some? ==> wallets[user].available >= minimum.value);
      if updated {
        var found := wallets[user];
        wallets := wallets[user := Wallet(found.available + available, found.escrow + escrow, found.version + 1)];
      }
    }

    /** Sets both balances of a wallet that still has the version read. */
    method SetBalances(i: nat, user: UserId, version: nat, available: int, escrow: int) returns (updated: bool)
      requires Calling(i, CasUser) && calls[i].req.Hold? && user == calls[i].user && version == calls[i].seen.version
      requires available == calls[i].seen.available - calls[i].req.amount
      requires escrow == calls[i].seen.escrow + calls[i].req.amount
      modifies this
      ensures var op := old(calls[i]);
              Reached(old(history), i, if updated then Won(op) else op.(pc := DeleteItem))
    {
      Interleave(i);
      var before := View();
      updated := SetIfCurrent(user, version, available, escrow);
      RecordUserSwap(i, before);
    }

    /** Increments both balances of a wallet that still has the version read and, where a
        minimum is given, at least that many available points. */
    method IncBalances(i: nat, user: UserId, version: nat, minimum: Option<int>, available: int, escrow: int)
      returns (updated: bool)
      requires Calling(i, CasUser) && !calls[i].req.Hold? && user == calls[i].user && version == calls[i].seen.version
      requires minimum == if calls[i].req.Deduct? then Some(calls[i].req.amount) else None
      requires available == AvailableDelta(calls[i]) && escrow == EscrowDelta(calls[i].req)
      modifies this
      ensures var op := old(calls[i]);
              Reached(old(history), i, if updated then Won(op) else LoseUser(config, op))
    {
      Interleave(i);
      var before := View();
      updated := IncIfCurrent(user, version, minimum, available, escrow);
      RecordUserSwap(i, before);
    }

    method SetEarned(i: nat, model: ModelId, version: nat, earned: int) returns (updated: bool)
      requires Calling(i, CasModel) && HasModel(calls[i].req) && model == calls[i].req.model
      requires version == calls[i].seenModel.version && earned == calls[i].seenModel.earned + EarnedDelta(calls[i].req)
      modifies this
      ensures var op := old(calls[i]);
              Reached(old(history), i,
                      if updated then Credited(op)
                      else op.(pc := if op.req.Settle? then Stuck else ReleaseItem))
    {
      Interleave(i);
      var before := View();
      updated := model in models && models[model].version == version;
      if updated {
        models := models[model := ModelWallet(earned, models[model].version + 1)];
      }
      ModelSwap(before, i);
      Record(i, before, "");
    }

    /** Moves a held item to the call's intermediate status and returns the document as it
        was: a caller's request agrees with it and its amount is positive. */
    method LockHeld(i: nat, id: EscrowId, status: Status) returns (original: Option<Item>)
      requires Calling(i, LockItem) && calls[i].item == Some(id) && IsRelease(calls[i].req)
      requires status == BusyStatus(calls[i].req)
      modifies this
      ensures var op := old(calls[i]);
              Reached(old(history), i, if original.Some? then Locking(op, original.value) else op.(pc := Failed))
      ensures original.Some? ==> Agrees(calls[i].req, original.value) && original.value.amount > 0
    {
      Interleave(i);
      var before := View();
      original := None;
      if id in escrows && escrows[id].status == Held {
        LeadsIsReachable(config, history, before);
        NamedItem(before, i, id);
        original := Some(escrows[id]);
        escrows := escrows[id := escrows[id].(status := status, owner := Some(i))];
      }
      Record(i, before, "");
    }

    /** A read of an item that no later step depends on. */
    method FindItem(i: nat, id: EscrowId) returns (found: Option<Item>)
      requires Valid() && i < |calls|
      modifies this
      ensures Reached(old(history), i, old(calls[i]))
      ensures found == if id in escrows then Some(escrows[id]) else None
    {
      Interleave(i);
      found := if id in escrows then Some(escrows[id]) else None;
    }

    /** Sets an item's status whatever it is. A call only does so with an item it owns. */
    method SetStatus(i: nat, id: EscrowId, status: Status)
      requires Valid() && i < |calls| && calls[i].item == Some(id)
      requires (calls[i].pc == ReleaseItem && status == Held)
               || (calls[i].pc == FinalizeItem && status == FinalStatus(calls[i].req))
      modifies this
      ensures var op := old(calls[i]);
              Reached(old(history), i, op.(pc := if op.pc == ReleaseItem then Failed else WriteFirst))
      ensures id in escrows && escrows[id].status == status
    {
      Interleave(i);
      var before := View();
      LeadsIsReachable(config, history, before);
      OwnedItem(before, i);
      if id in escrows {
        escrows := escrows[id := escrows[id].(status := status, owner := None)];
      }
      Record(i, before, "");
    }

    method Delete(i: nat, id: EscrowId)
      requires Calling(i, DeleteItem) && calls[i].item == Some(id)
      modifies this
      ensures Reached(old(history), i, Retried(config, old(calls[i])))
      ensures id !in escrows
    {
      Interleave(i);
      var before := View();
      escrows := escrows - {id};
      Record(i, before, "");
    }

    /** Appends an entry unless its key is used, and says which; None when the ledger refuses
        the request's metadata, which it checks before anything else. */
    method CreateEntry(i: nat, entry: Entry, refused: bool) returns (fate: Option<Fate>)
      requires Valid() && i < |calls| && entry.amount != 0 && refused == Refuses(calls[i].req)
      requires (calls[i].pc == WriteFirst && entry == FirstEntry(calls[i]))
               || (calls[i].pc == WriteSecond && entry == SecondEntry(calls[i]))
      modifies this
      ensures var op := old(calls[i]);
              Reached(old(history), i, if fate.None? then op.(pc := EntryRefused) else Entered(op, fate.value))
      ensures fate.None? <==> refused
      ensures fate.Some? ==> fate.value == Written || fate.value == Duplicate
      ensures fate == Some(Written) ==> ledger != [] && ledger[|ledger| - 1] == entry
      ensures fate == Some(Duplicate) ==> KeyUsed(ledger, entry.key)
    {
      Interleave(i);
      var before := View();
      if refused {
        Record(i, before, "");
        return None;
      }
      fate := AppendEntry(entry);
      assert WriteFate(before, entry).0 == fate.value;
      Record(i, before, "");
    }

    /** The insert into the ledger: the unique index on keys refuses a second entry. */
    method AppendEntry(entry: Entry) returns (fate: Option<Fate>)
      modifies this`ledger
      ensures fate == Some(if KeyUsed(old(ledger), entry.key) then Duplicate else Written)
      ensures ledger == if KeyUsed(old(ledger), entry.key) then old(ledger) else old(ledger) + [entry]
    {
      if exists k :: 0 <= k < |ledger| && ledger[k].key == entry.key {
        return Some(Duplicate);
      }
      ledger := ledger + [entry];
      return Some(Written);
    }

    /** A part of zero points has no entry: only the call's record moves on. */
    method SkipEntry(i: nat)
      requires Valid() && i < |calls| && calls[i].req.Partial?
      requires (calls[i].pc == WriteFirst && calls[i].req.refund == 0)
               || (calls[i].pc == WriteSecond && calls[i].req.settle == 0)
      modifies this
      ensures var op := old(calls[i]);
              Reached(old(history), i, if op.pc == WriteSecond then op.(second := Pending, pc := Done)
                                       else op.(first := Pending, pc := WriteSecond))
    {
      Interleave(i);
      var before := View();
      Record(i, before, "");
    }
  }
}
