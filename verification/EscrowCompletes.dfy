/** Calls that nobody disturbs complete: from any reachable state in which a call can succeed,
    its own steps alone lead to the wallets, items and ledger that it promises. The first
    lemmas take one database call each. */
module EscrowCompletes {
  import opened Options
  import opened EscrowProtocol
  import opened EscrowSerial
  import opened EscrowTheorems

  // ------------------------------------------------------------------ single steps

  lemma Runs(cfg: Config, past: seq<Action>, s: State, i: nat, newId: EscrowId, op': Op, write: Write) returns (s': State)
    requires LeadsTo(cfg, past, s) && Enabled(s, Run(i, newId, 0)) && Advance(s, i, newId, 0) == (op', write)
    ensures LeadsTo(cfg, past + [Run(i, newId, 0)], s') && s' == Perform(s, i, op', write)
  {
    LeadsOn(cfg, past, s, Run(i, newId, 0));
    s' := Perform(s, i, op', write);
  }

  lemma Begins(cfg: Config, past: seq<Action>, s: State, req: Request) returns (s': State)
    requires LeadsTo(cfg, past, s) && Honest(s, req)
    ensures LeadsTo(cfg, past + [Begin(req)], s') && s' == s.(ops := s.ops + [NewOp(s.config, req)])
  {
    LeadsOn(cfg, past, s, Begin(req));
    s' := Step(s, Begin(req));
  }

  lemma TakesClaim(cfg: Config, past: seq<Action>, s: State, i: nat) returns (s': State)
    requires LeadsTo(cfg, past, s) && i < |s.ops| && s.ops[i].pc == Claim && ClaimOf(s.ops[i].req) !in s.claims
    requires s.config.maxAttempts > 0
    ensures LeadsTo(cfg, past + [Run(i, "", 0)], s')
    ensures s' == s.(ops := s.ops[i := s.ops[i].(pc := if IsRelease(s.ops[i].req) then LockItem else ReadUser)],
                     claims := s.claims + {ClaimOf(s.ops[i].req)})
  {
    var (op', write) := ClaimStep(s, s.ops[i]);
    s' := Runs(cfg, past, s, i, "", op', write);
  }

  lemma LocksItem(cfg: Config, past: seq<Action>, s: State, i: nat, e: EscrowId) returns (s': State)
    requires LeadsTo(cfg, past, s) && i < |s.ops| && s.ops[i].pc == LockItem && s.ops[i].item == Some(e)
    requires e in s.escrows && s.escrows[e].status == Held && IsRelease(s.ops[i].req)
    requires s.ops[i].req.Partial? ==> s.ops[i].req.refund + s.ops[i].req.settle == s.escrows[e].amount
    ensures LeadsTo(cfg, past + [Run(i, "", 0)], s')
    ensures var op := s.ops[i];
            s' == s.(ops := s.ops[i := op.(pc := if op.req.Settle? then ReadModel else ReadUser,
                                           user := if op.req.Settle? then s.escrows[e].user else op.user)],
                     escrows := s.escrows[e := s.escrows[e].(status := BusyStatus(op.req), owner := Some(i))])
  {
    var (op', write) := LockStep(s, i, s.ops[i]);
    s' := Runs(cfg, past, s, i, "", op', write);
  }

  lemma ReadsUser(cfg: Config, past: seq<Action>, s: State, i: nat) returns (s': State)
    requires LeadsTo(cfg, past, s) && i < |s.ops| && s.ops[i].pc == ReadUser && !s.ops[i].req.Expire?
    requires s.ops[i].user in s.wallets
    ensures LeadsTo(cfg, past + [Run(i, "", 0)], s')
    ensures s' == s.(ops := s.ops[i := AfterRead(s.ops[i], s.wallets[s.ops[i].user], 0)])
  {
    var (op', write) := ReadUserStep(s, s.ops[i], 0);
    s' := Runs(cfg, past, s, i, "", op', write);
  }

  lemma FindsNoUser(cfg: Config, past: seq<Action>, s: State, i: nat) returns (s': State)
    requires LeadsTo(cfg, past, s) && i < |s.ops| && s.ops[i].pc == ReadUser && s.ops[i].req.Award?
    requires s.ops[i].user !in s.wallets
    ensures LeadsTo(cfg, past + [Run(i, "", 0)], s')
    ensures s' == s.(ops := s.ops[i := s.ops[i].(pc := CreateUser)])
  {
    var (op', write) := ReadUserStep(s, s.ops[i], 0);
    s' := Runs(cfg, past, s, i, "", op', write);
  }

  lemma CreatesWallet(cfg: Config, past: seq<Action>, s: State, i: nat) returns (s': State)
    requires LeadsTo(cfg, past, s) && i < |s.ops| && s.ops[i].pc == CreateUser && s.ops[i].req.Award?
    requires s.ops[i].user !in s.wallets
    ensures LeadsTo(cfg, past + [Run(i, "", 0)], s')
    ensures s' == s.(ops := s.ops[i := s.ops[i].(pc := CasUser, seen := NEW_WALLET)],
                     wallets := s.wallets[s.ops[i].user := NEW_WALLET])
  {
    var (op', write) := CreateUserStep(s, s.ops[i]);
    s' := Runs(cfg, past, s, i, "", op', write);
  }

  lemma InsertsItem(cfg: Config, past: seq<Action>, s: State, i: nat, e: EscrowId) returns (s': State)
    requires LeadsTo(cfg, past, s) && i < |s.ops| && s.ops[i].pc == InsertItem && s.ops[i].req.Hold? && FreshId(s, e)
    requires forall d :: d in s.escrows ==> s.escrows[d].queueItem != s.ops[i].req.queueItem
    ensures LeadsTo(cfg, past + [Run(i, e, 0)], s')
    ensures var op := s.ops[i];
            s' == s.(ops := s.ops[i := op.(pc := CasUser, item := Some(e))],
                     escrows := s.escrows[e := Item(op.user, op.req.amount, op.req.queueItem, Held, i, None)])
  {
    var (op', write) := InsertStep(s, i, s.ops[i], e);
    s' := Runs(cfg, past, s, i, e, op', write);
  }

  lemma WinsUser(cfg: Config, past: seq<Action>, s: State, i: nat) returns (s': State)
    requires LeadsTo(cfg, past, s) && i < |s.ops| && s.ops[i].pc == CasUser && s.ops[i].user in s.wallets
    requires s.wallets[s.ops[i].user].version == s.ops[i].seen.version
    requires s.ops[i].req.Deduct? ==> s.wallets[s.ops[i].user].available >= s.ops[i].req.amount
    ensures LeadsTo(cfg, past + [Run(i, "", 0)], s')
    ensures var op := s.ops[i];
            s' == s.(ops := s.ops[i := op.(userDone := true,
                                           pc := if op.req.Settle? || op.req.Refund? then FinalizeItem
                                                 else if op.req.Partial? then CasModel else WriteFirst)],
                     wallets := s.wallets[op.user := UserAfter(op, s.wallets[op.user])], log := s'.log)
  {
    var (op', write) := CasUserStep(s, s.ops[i]);
    s' := Runs(cfg, past, s, i, "", op', write);
  }

  lemma LosesUser(cfg: Config, past: seq<Action>, s: State, i: nat) returns (s': State)
    requires LeadsTo(cfg, past, s) && i < |s.ops| && s.ops[i].pc == CasUser && IsRelease(s.ops[i].req)
    requires s.ops[i].user in s.wallets && s.wallets[s.ops[i].user].version != s.ops[i].seen.version
    ensures LeadsTo(cfg, past + [Run(i, "", 0)], s')
    ensures s' == s.(ops := s.ops[i := s.ops[i].(pc := ReleaseItem)])
  {
    var (op', write) := CasUserStep(s, s.ops[i]);
    s' := Runs(cfg, past, s, i, "", op', write);
  }

  lemma ReadsModel(cfg: Config, past: seq<Action>, s: State, i: nat) returns (s': State)
    requires LeadsTo(cfg, past, s) && i < |s.ops| && s.ops[i].pc == ReadModel && HasModel(s.ops[i].req)
    requires s.ops[i].req.model in s.models
    ensures LeadsTo(cfg, past + [Run(i, "", 0)], s')
    ensures s' == s.(ops := s.ops[i := AfterModelRead(s.ops[i], s.models[s.ops[i].req.model])])
  {
    var (op', write) := ReadModelStep(s, s.ops[i]);
    s' := Runs(cfg, past, s, i, "", op', write);
  }

  lemma CreatesModelWallet(cfg: Config, past: seq<Action>, s: State, i: nat) returns (s': State)
    requires LeadsTo(cfg, past, s) && i < |s.ops| && s.ops[i].pc == ReadModel && HasModel(s.ops[i].req)
    requires s.ops[i].req.model !in s.models
    ensures LeadsTo(cfg, past + [Run(i, "", 0)] + [Run(i, "", 0)], s')
    ensures s' == s.(ops := s.ops[i := AfterModelRead(s.ops[i], NEW_MODEL_WALLET)],
                     models := s.models[s.ops[i].req.model := NEW_MODEL_WALLET])
  {
    var (op', write) := ReadModelStep(s, s.ops[i]);
    var s1 := Runs(cfg, past, s, i, "", op', write);
    var (op2, write2) := CreateModelStep(s1, s1.ops[i]);
    s' := Runs(cfg, past + [Run(i, "", 0)], s1, i, "", op2, write2);
  }

  lemma WinsModel(cfg: Config, past: seq<Action>, s: State, i: nat) returns (s': State)
    requires LeadsTo(cfg, past, s) && i < |s.ops| && s.ops[i].pc == CasModel && HasModel(s.ops[i].req)
    requires s.ops[i].req.model in s.models && s.models[s.ops[i].req.model].version == s.ops[i].seenModel.version
    ensures LeadsTo(cfg, past + [Run(i, "", 0)], s')
    ensures var op := s.ops[i];
            s' == s.(ops := s.ops[i := op.(modelDone := true, pc := if op.req.Settle? then ReadUser else FinalizeItem)],
                     models := s.models[op.req.model := ModelWallet(op.seenModel.earned + EarnedDelta(op.req),
                                                                    op.seenModel.version + 1)], log := s'.log)
  {
    var (op', write) := CasModelStep(s, s.ops[i]);
    s' := Runs(cfg, past, s, i, "", op', write);
  }

  lemma LosesModel(cfg: Config, past: seq<Action>, s: State, i: nat) returns (s': State)
    requires LeadsTo(cfg, past, s) && i < |s.ops| && s.ops[i].pc == CasModel && s.ops[i].req.Partial?
    requires s.ops[i].req.model in s.models && s.models[s.ops[i].req.model].version != s.ops[i].seenModel.version
    ensures LeadsTo(cfg, past + [Run(i, "", 0)], s')
    ensures s' == s.(ops := s.ops[i := s.ops[i].(pc := ReleaseItem)])
  {
    var (op', write) := CasModelStep(s, s.ops[i]);
    s' := Runs(cfg, past, s, i, "", op', write);
  }

  lemma PutsBack(cfg: Config, past: seq<Action>, s: State, i: nat, e: EscrowId) returns (s': State)
    requires LeadsTo(cfg, past, s) && i < |s.ops| && s.ops[i].pc == ReleaseItem && s.ops[i].item == Some(e) && e in s.escrows
    ensures LeadsTo(cfg, past + [Run(i, "", 0)], s')
    ensures s' == s.(ops := s.ops[i := s.ops[i].(pc := Failed)],
                     escrows := s.escrows[e := s.escrows[e].(status := Held, owner := None)])
  {
    var (op', write) := SetStatusStep(s, s.ops[i], Held, Failed);
    s' := Runs(cfg, past, s, i, "", op', write);
  }

  /** A ledger that has been given an entry: a used key adds nothing. */
  function Entered(ledger: seq<Entry>, e: Entry): seq<Entry> { if KeyUsed(ledger, e.key) then ledger else ledger + [e] }

  /** The first entry, when the ledger accepts it and there is one. */
  lemma RecordsFirst(cfg: Config, past: seq<Action>, s: State, i: nat) returns (s': State)
    requires LeadsTo(cfg, past, s) && i < |s.ops| && s.ops[i].pc == WriteFirst && !Refuses(s.ops[i].req)
    ensures LeadsTo(cfg, past + [Run(i, "", 0)], s') && i < |s'.ops|
    ensures s' == s.(ops := s.ops[i := s.ops[i].(pc := if HasSecond(s.ops[i].req) then WriteSecond else Done,
                                                 first := s'.ops[i].first)],
                     ledger := if FirstAmount(s.ops[i]) == 0 then s.ledger else Entered(s.ledger, FirstEntry(s.ops[i])))
  {
    var (op', write) := WriteFirstStep(s, s.ops[i]);
    s' := Runs(cfg, past, s, i, "", op', write);
  }

  lemma RecordsSecond(cfg: Config, past: seq<Action>, s: State, i: nat) returns (s': State)
    requires LeadsTo(cfg, past, s) && i < |s.ops| && s.ops[i].pc == WriteSecond && !Refuses(s.ops[i].req)
    ensures LeadsTo(cfg, past + [Run(i, "", 0)], s') && i < |s'.ops|
    ensures s' == s.(ops := s.ops[i := s.ops[i].(pc := Done, second := s'.ops[i].second)],
                     ledger := if SecondAmount(s.ops[i].req) == 0 then s.ledger else Entered(s.ledger, SecondEntry(s.ops[i])))
  {
    var (op', write) := WriteSecondStep(s, s.ops[i]);
    s' := Runs(cfg, past, s, i, "", op', write);
  }

  lemma FinalizesItem(cfg: Config, past: seq<Action>, s: State, i: nat, e: EscrowId) returns (s': State)
    requires LeadsTo(cfg, past, s) && i < |s.ops| && s.ops[i].pc == FinalizeItem && s.ops[i].item == Some(e) && e in s.escrows
    ensures LeadsTo(cfg, past + [Run(i, "", 0)], s')
    ensures s' == s.(ops := s.ops[i := s.ops[i].(pc := WriteFirst)],
                     escrows := s.escrows[e := s.escrows[e].(status := FinalStatus(s.ops[i].req), owner := None)])
  {
    var (op', write) := SetStatusStep(s, s.ops[i], FinalStatus(s.ops[i].req), WriteFirst);
    s' := Runs(cfg, past, s, i, "", op', write);
  }

  // ------------------------------------------------------------- an undisturbed hold

  function HoldActs(i: nat, req: Request, e: EscrowId): seq<Action> {
    [Begin(req), Run(i, "", 0), Run(i, "", 0), Run(i, e, 0), Run(i, "", 0),
     Run(i, "", 0), Run(i, "", 0)]
  }

  function Debited(w: Wallet, amount: int): Wallet { Wallet(w.available - amount, w.escrow + amount, w.version + 1) }

  /** The hold `req` has inserted item `e` and committed, and nothing else has happened but
      its ledger entries. */
  predicate Holding(s: State, s': State, req: Request, e: EscrowId)
    requires req.Hold? && req.user in s.wallets
  {
    && s'.config == s.config && s'.models == s.models && s'.claims == s.claims + {(HoldScope, req.key)}
    && s'.escrows == s.escrows[e := Item(req.user, req.amount, req.queueItem, Held, |s.ops|, None)]
    && s'.wallets == s.wallets[req.user := Debited(s.wallets[req.user], req.amount)]
    && |s'.ops| == |s.ops| + 1 && s'.ops[..|s.ops|] == s.ops
    && s'.ops[|s.ops|].req == req && s'.ops[|s.ops|].item == Some(e)
  }

  predicate HoldPossible(s: State, req: Request, e: EscrowId) {
    && req.Hold? && s.config.maxAttempts > 0 && req.amount > 0 && (HoldScope, req.key) !in s.claims
    && req.user in s.wallets && s.wallets[req.user].available >= req.amount && FreshId(s, e)
    && forall d :: d in s.escrows ==> s.escrows[d].queueItem != req.queueItem
  }

  lemma HoldReads(cfg: Config, past: seq<Action>, s: State, req: Request, e: EscrowId) returns (s': State)
    requires LeadsTo(cfg, past, s) && HoldPossible(s, req, e)
    ensures LeadsTo(cfg, past + [Begin(req)] + [Run(|s.ops|, "", 0)] + [Run(|s.ops|, "", 0)], s')
    ensures s' == s.(ops := s.ops + [NewOp(s.config, req).(pc := InsertItem, seen := s.wallets[req.user])],
                     claims := s.claims + {(HoldScope, req.key)})
  {
    var i := |s.ops|;
    var s0 := Begins(cfg, past, s, req);
    var s1 := TakesClaim(cfg, past + [Begin(req)], s0, i);
    s' := ReadsUser(cfg, past + [Begin(req)] + [Run(i, "", 0)], s1, i);
    assert s'.ops == s.ops + [NewOp(s.config, req).(pc := InsertItem, seen := s.wallets[req.user])];
  }

  lemma HoldCommits(cfg: Config, past: seq<Action>, before: State, s: State, req: Request, e: EscrowId) returns (s': State)
    requires LeadsTo(cfg, past, s) && HoldPossible(before, req, e)
    requires s == before.(ops := before.ops + [NewOp(before.config, req).(pc := InsertItem, seen := before.wallets[req.user])],
                          claims := before.claims + {(HoldScope, req.key)})
    ensures LeadsTo(cfg, past + [Run(|before.ops|, e, 0)] + [Run(|before.ops|, "", 0)], s')
    ensures Holding(before, s', req, e) && s'.ops[|before.ops|].pc == WriteFirst && s'.ops[|before.ops|].userDone
    ensures s'.ledger == before.ledger && s'.ops[|before.ops|].user == req.user
    ensures s'.ops[|before.ops|].seen == before.wallets[req.user]
  {
    var i := |before.ops|;
    var s1 := InsertsItem(cfg, past, s, i, e);
    s' := WinsUser(cfg, past + [Run(i, e, 0)], s1, i);
  }

  /** The two entries of a hold. */
  function HoldDebit(r: Request, w: Wallet): Entry
    requires r.Hold?
  {
    Entry(FirstKey(r), Available(r.user), -r.amount, w.available, w.available - r.amount)
  }

  function HoldCredit(r: Request, w: Wallet): Entry
    requires r.Hold?
  {
    Entry(SecondKey(r), Escrow(r.user), r.amount, w.escrow, w.escrow + r.amount)
  }

  /** A ledger that has been given both. */
  function EnteredHold(ledger: seq<Entry>, r: Request, w: Wallet): seq<Entry>
    requires r.Hold?
  {
    Entered(Entered(ledger, HoldDebit(r, w)), HoldCredit(r, w))
  }

  lemma HoldOne(op: Op)
    requires op.req.Hold? && op.user == op.req.user
    ensures FirstEntry(op) == HoldDebit(op.req, op.seen)
  {
  }

  lemma HoldTwo(op: Op)
    requires op.req.Hold? && op.user == op.req.user
    ensures SecondEntry(op) == HoldCredit(op.req, op.seen)
  {
  }

  lemma HoldEntries(ledger: seq<Entry>, op: Op)
    requires op.req.Hold? && op.user == op.req.user
    ensures Entered(Entered(ledger, FirstEntry(op)), SecondEntry(op)) == EnteredHold(ledger, op.req, op.seen)
  {
    HoldOne(op);
    HoldTwo(op);
  }

  lemma HoldRecords(cfg: Config, past: seq<Action>, before: State, s: State, req: Request, e: EscrowId) returns (s': State)
    requires LeadsTo(cfg, past, s) && HoldPossible(before, req, e) && !req.refused
    requires Holding(before, s, req, e) && s.ops[|before.ops|].pc == WriteFirst && s.ledger == before.ledger
    requires s.ops[|before.ops|].user == req.user && s.ops[|before.ops|].seen == before.wallets[req.user]
    ensures LeadsTo(cfg, past + [Run(|before.ops|, "", 0)] + [Run(|before.ops|, "", 0)], s')
    ensures Holding(before, s', req, e) && s'.ops[|before.ops|].pc == Done
    ensures s'.ledger == EnteredHold(before.ledger, req, before.wallets[req.user])
  {
    var i := |before.ops|;
    var s1 := RecordsFirst(cfg, past, s, i);
    s' := RecordsSecond(cfg, past + [Run(i, "", 0)], s1, i);
    assert SecondEntry(s1.ops[i]) == SecondEntry(s.ops[i]);
    HoldEntries(before.ledger, s.ops[i]);
  }

  /** From any reachable state a hold that is not disturbed completes, given the points, an
      unused key, an unused queue item and metadata that the ledger accepts: its points are in
      escrow, in a held item, and both entries in the ledger. */
  lemma HoldCompletes(cfg: Config, past: seq<Action>, s: State, req: Request, e: EscrowId) returns (s': State)
    requires LeadsTo(cfg, past, s) && HoldPossible(s, req, e) && !req.refused
    ensures LeadsTo(cfg, past + HoldActs(|s.ops|, req, e), s')
    ensures Holding(s, s', req, e) && s'.ops[|s.ops|].pc == Done
    ensures s'.ledger == EnteredHold(s.ledger, req, s.wallets[req.user])
  {
    var i := |s.ops|;
    var s1 := HoldReads(cfg, past, s, req, e);
    var p1 := past + [Begin(req)] + [Run(i, "", 0)] + [Run(i, "", 0)];
    var s2 := HoldCommits(cfg, p1, s, s1, req, e);
    var p2 := p1 + [Run(i, e, 0)] + [Run(i, "", 0)];
    s' := HoldRecords(cfg, p2, s, s2, req, e);
    assert p2 + [Run(i, "", 0)] + [Run(i, "", 0)] == past + HoldActs(i, req, e);
  }

  // ------------------------------------------------------ an undisturbed lock of an item

  /** What a release waits for before its lock. */
  predicate LockPossible(s: State, req: Request) {
    && IsRelease(req) && Honest(s, req) && s.config.maxAttempts > 0 && ClaimOf(req) !in s.claims
    && req.escrowId in s.escrows && s.escrows[req.escrowId].status == Held
    && (req.Partial? ==> req.refund + req.settle == s.escrows[req.escrowId].amount)
  }

  /** From any reachable state a release that is not disturbed locks its held item. */
  lemma LockCompletes(cfg: Config, past: seq<Action>, s: State, req: Request) returns (s': State)
    requires LeadsTo(cfg, past, s) && LockPossible(s, req)
    ensures LeadsTo(cfg, past + [Begin(req), Run(|s.ops|, "", 0), Run(|s.ops|, "", 0)], s')
    ensures var (i, item, op) := (|s.ops|, s.escrows[req.escrowId], NewOp(s.config, req));
            s' == s.(ops := s.ops + [op.(pc := if req.Settle? then ReadModel else ReadUser,
                                         user := if req.Settle? then item.user else op.user)],
                     claims := s.claims + {ClaimOf(req)},
                     escrows := s.escrows[req.escrowId := item.(status := BusyStatus(req), owner := Some(i))])
  {
    var i := |s.ops|;
    var s0 := Begins(cfg, past, s, req);
    var s1 := TakesClaim(cfg, past + [Begin(req)], s0, i);
    s' := LocksItem(cfg, past + [Begin(req)] + [Run(i, "", 0)], s1, i, req.escrowId);
    assert past + [Begin(req)] + [Run(i, "", 0)] + [Run(i, "", 0)]
           == past + [Begin(req), Run(i, "", 0), Run(i, "", 0)];
    assert s'.ops == s.ops + [s'.ops[i]];
  }

  // -------------------------------------------------------------- undisturbed releases

  /** A call begins and makes `n` database calls of its own, nothing else happening. */
  function Alone(req: Request, i: nat, n: nat): seq<Action> { [Begin(req)] + seq(n, _ => Run(i, "", 0)) }

  lemma AloneNext(past: seq<Action>, req: Request, i: nat, n: nat)
    ensures past + Alone(req, i, n) + [Run(i, "", 0)] == past + Alone(req, i, n + 1)
  {
  }

  lemma AloneLocks(past: seq<Action>, req: Request, i: nat)
    ensures past + [Begin(req), Run(i, "", 0), Run(i, "", 0)] == past + Alone(req, i, 2)
  {
  }

  /** The other calls are as they were and the new one has returned. */
  predicate Returns(s: State, s': State) {
    |s'.ops| == |s.ops| + 1 && s'.ops[..|s.ops|] == s.ops && s'.ops[|s.ops|].pc == Done
  }

  /** What a release waits for: its lock, its user's wallet, metadata the ledger accepts. */
  predicate ReleasePossible(s: State, req: Request) {
    LockPossible(s, req) && !req.refused && s.escrows[req.escrowId].user in s.wallets && s.escrows[req.escrowId].amount > 0
  }

  /** The state before the last steps of a release, all its updates committed. */
  predicate Committed(s: State, s': State, req: Request)
    requires IsRelease(req) && req.escrowId in s.escrows
  {
    var (i, item) := (|s.ops|, s.escrows[req.escrowId]);
    && s'.config == s.config && s'.ledger == s.ledger && s'.claims == s.claims + {ClaimOf(req)}
    && s'.escrows == s.escrows[req.escrowId := item.(status := BusyStatus(req), owner := Some(i))]
    && |s'.ops| == i + 1 && s'.ops[..i] == s.ops
    && s'.ops[i].req == req && s'.ops[i].pc == FinalizeItem && s'.ops[i].item == Some(req.escrowId)
    && s'.ops[i].user == item.user
  }

  /** The last steps of a settle or a refund. */
  lemma FinishesOne(cfg: Config, past: seq<Action>, s: State, s1: State, req: Request, n: nat) returns (s': State)
    requires (req.Settle? || req.Refund?) && !req.refused && req.amount > 0
    requires req.escrowId in s.escrows && Committed(s, s1, req) && LeadsTo(cfg, past + Alone(req, |s.ops|, n), s1)
    ensures LeadsTo(cfg, past + Alone(req, |s.ops|, n + 2), s') && Returns(s, s')
    ensures s' == s1.(ops := s'.ops, ledger := Entered(s.ledger, FirstEntry(s1.ops[|s.ops|])),
                      escrows := s.escrows[req.escrowId := s.escrows[req.escrowId].(status := FinalStatus(req), owner := None)])
  {
    var i := |s.ops|;
    var s2 := FinalizesItem(cfg, past + Alone(req, i, n), s1, i, req.escrowId);
    AloneNext(past, req, i, n);
    s' := RecordsFirst(cfg, past + Alone(req, i, n + 1), s2, i);
    AloneNext(past, req, i, n + 1);
    assert FirstEntry(s2.ops[i]) == FirstEntry(s1.ops[i]);
  }

  /** The ledger keys a request derives from its idempotency key. */
  lemma DerivedKeys(r: Request)
    ensures FirstKey(r) == if r.Hold? then r.key + "_debit" else if r.Partial? then r.key + "_refund" else r.key
    ensures HasSecond(r) ==> SecondKey(r) == if r.Hold? then r.key + "_credit" else r.key + "_settle"
  {
    assert r.key + "" == r.key;
  }

  /** The entry of a refund, a settle or a direct writer. */
  lemma OneEntry(op: Op)
    requires !HasSecond(op.req) && (op.req.Settle? || op.user == op.req.user)
    ensures FirstEntry(op) ==
              if op.req.Settle? then
                Entry(FirstKey(op.req), Earned(op.req.model), op.req.amount, op.seenModel.earned,
                      op.seenModel.earned + op.req.amount)
              else
                var d := AvailableDelta(op);
                Entry(FirstKey(op.req), Available(op.user), d, op.seen.available, op.seen.available + d)
  {
  }

  /** The release has locked its item; `op` is its call. */
  function LockedBy(s: State, req: Request, op: Op): State
    requires IsRelease(req) && req.escrowId in s.escrows
  {
    s.(ops := s.ops + [op], claims := s.claims + {ClaimOf(req)},
       escrows := s.escrows[req.escrowId := s.escrows[req.escrowId].(status := BusyStatus(req), owner := Some(|s.ops|))])
  }

  /** The call of a release past its lock. */
  function LockedOp(s: State, req: Request): Op
    requires IsRelease(req) && req.escrowId in s.escrows
  {
    NewOp(s.config, req).(pc := if req.Settle? then ReadModel else ReadUser, user := s.escrows[req.escrowId].user)
  }

  lemma ReleaseLocks(cfg: Config, past: seq<Action>, s: State, req: Request) returns (s': State)
    requires LeadsTo(cfg, past, s) && ReleasePossible(s, req)
    ensures LeadsTo(cfg, past + Alone(req, |s.ops|, 2), s') && s' == LockedBy(s, req, LockedOp(s, req))
  {
    s' := LockCompletes(cfg, past, s, req);
    AloneLocks(past, req, |s.ops|);
  }

  /** The user's side of a settle or a refund. */
  lemma DebitsUser(cfg: Config, past: seq<Action>, s: State, req: Request, i: nat, n: nat) returns (s': State)
    requires LeadsTo(cfg, past + Alone(req, i, n), s) && i < |s.ops| && s.ops[i].pc == ReadUser
    requires (s.ops[i].req.Settle? || s.ops[i].req.Refund?) && s.ops[i].user in s.wallets
    ensures LeadsTo(cfg, past + Alone(req, i, n + 2), s')
    ensures var (op, w) := (s.ops[i], s.wallets[s.ops[i].user]);
            s' == s.(ops := s.ops[i := op.(seen := w, userDone := true, pc := FinalizeItem)], log := s'.log,
                     wallets := s.wallets[op.user := UserAfter(op.(seen := w, pc := CasUser), w)])
  {
    var s1 := ReadsUser(cfg, past + Alone(req, i, n), s, i);
    AloneNext(past, req, i, n);
    s' := WinsUser(cfg, past + Alone(req, i, n + 1), s1, i);
    AloneNext(past, req, i, n + 1);
  }

  /** A refund that has read its wallet and updated it. */
  lemma RefundCommits(cfg: Config, past: seq<Action>, s: State, req: Request) returns (s': State)
    requires LeadsTo(cfg, past, s) && req.Refund? && ReleasePossible(s, req)
    ensures LeadsTo(cfg, past + Alone(req, |s.ops|, 4), s') && Committed(s, s', req)
    ensures s'.ops[|s.ops|].seen == s.wallets[req.user]
    ensures var w := s.wallets[req.user];
            s' == s.(ops := s'.ops, log := s'.log, claims := s'.claims, escrows := s'.escrows,
                     wallets := s.wallets[req.user := Wallet(w.available + req.amount, w.escrow - req.amount, w.version + 1)])
  {
    var s1 := ReleaseLocks(cfg, past, s, req);
    s' := DebitsUser(cfg, past, s1, req, |s.ops|, 2);
  }

  /** A refund that nobody disturbs moves the amount from escrow to available, marks its
      item refunded, and records it. */
  lemma RefundCompletes(cfg: Config, past: seq<Action>, s: State, req: Request) returns (s': State)
    requires LeadsTo(cfg, past, s) && req.Refund? && ReleasePossible(s, req)
    ensures LeadsTo(cfg, past + Alone(req, |s.ops|, 6), s') && Returns(s, s')
    ensures var (w, item) := (s.wallets[req.user], s.escrows[req.escrowId]);
            s' == s.(ops := s'.ops, log := s'.log, claims := s.claims + {(RefundScope, req.key)},
                     wallets := s.wallets[req.user := Wallet(w.available + req.amount, w.escrow - req.amount, w.version + 1)],
                     escrows := s.escrows[req.escrowId := item.(status := Refunded, owner := None)],
                     ledger := Entered(s.ledger, Entry(FirstKey(req), Available(req.user), req.amount, w.available,
                                                       w.available + req.amount)))
  {
    var s1 := RefundCommits(cfg, past, s, req);
    s' := FinishesOne(cfg, past, s, s1, req, 4);
    OneEntry(s1.ops[|s.ops|]);
  }

  /** The model wallet a settle finds or creates, and the database calls that takes. */
  function ModelRuns(s: State, m: ModelId): nat { if m in s.models then 1 else 2 }

  lemma FindsModel(cfg: Config, past: seq<Action>, s: State, req: Request, i: nat, n: nat) returns (s': State)
    requires LeadsTo(cfg, past + Alone(req, i, n), s) && i < |s.ops| && s.ops[i].pc == ReadModel && HasModel(s.ops[i].req)
    ensures var (op, m) := (s.ops[i], s.ops[i].req.model);
            && LeadsTo(cfg, past + Alone(req, i, n + ModelRuns(s, m)), s')
            && s' == s.(ops := s.ops[i := AfterModelRead(op, ModelNow(s, m))], models := s.models[m := ModelNow(s, m)])
  {
    var m := s.ops[i].req.model;
    AloneNext(past, req, i, n);
    AloneNext(past, req, i, n + 1);
    if m in s.models {
      s' := ReadsModel(cfg, past + Alone(req, i, n), s, i);
      assert s.models[m := s.models[m]] == s.models;
    } else {
      s' := CreatesModelWallet(cfg, past + Alone(req, i, n), s, i);
    }
  }

  /** The model's side of a settle. */
  lemma CreditsModel(cfg: Config, past: seq<Action>, s: State, req: Request, i: nat, n: nat) returns (s': State)
    requires LeadsTo(cfg, past + Alone(req, i, n), s) && i < |s.ops| && s.ops[i].pc == ReadModel && s.ops[i].req.Settle?
    ensures var (op, m) := (s.ops[i], ModelNow(s, s.ops[i].req.model));
            && LeadsTo(cfg, past + Alone(req, i, n + ModelRuns(s, op.req.model) + 1), s')
            && s' == s.(ops := s.ops[i := op.(seenModel := m, modelDone := true, pc := ReadUser)], log := s'.log,
                        models := s.models[op.req.model := ModelWallet(m.earned + op.req.amount, m.version + 1)])
  {
    var s1 := FindsModel(cfg, past, s, req, i, n);
    var k := n + ModelRuns(s, s.ops[i].req.model);
    s' := WinsModel(cfg, past + Alone(req, i, k), s1, i);
    AloneNext(past, req, i, k);
  }

  /** A settle up to the credit of its model. */
  lemma SettleCredits(cfg: Config, past: seq<Action>, s: State, req: Request) returns (s': State)
    requires LeadsTo(cfg, past, s) && req.Settle? && ReleasePossible(s, req)
    ensures LeadsTo(cfg, past + Alone(req, |s.ops|, 3 + ModelRuns(s, req.model)), s')
    ensures var m := ModelNow(s, req.model);
            s' == LockedBy(s, req, LockedOp(s, req).(seenModel := m, modelDone := true, pc := ReadUser))
                  .(log := s'.log, models := s.models[req.model := ModelWallet(m.earned + req.amount, m.version + 1)])
  {
    var s1 := ReleaseLocks(cfg, past, s, req);
    s' := CreditsModel(cfg, past, s1, req, |s.ops|, 2);
    assert s'.ops == s.ops + [s'.ops[|s.ops|]];
  }

  /** The user's side of a settle. */
  lemma SettleDebits(cfg: Config, past: seq<Action>, s: State, s1: State, req: Request, n: nat) returns (s': State)
    requires req.Settle? && ReleasePossible(s, req) && LeadsTo(cfg, past + Alone(req, |s.ops|, n), s1)
    requires |s1.ops| == |s.ops| + 1
    requires s1 == LockedBy(s, req, LockedOp(s, req).(seenModel := s1.ops[|s.ops|].seenModel, modelDone := true, pc := ReadUser))
                   .(log := s1.log, models := s1.models)
    ensures LeadsTo(cfg, past + Alone(req, |s.ops|, n + 2), s') && Committed(s, s', req)
    ensures s'.ops[|s.ops|].seenModel == s1.ops[|s.ops|].seenModel && s'.models == s1.models
    ensures var (u, w) := (s.escrows[req.escrowId].user, s.wallets[s.escrows[req.escrowId].user]);
            s'.wallets == s.wallets[u := Wallet(w.available, w.escrow - req.amount, w.version + 1)]
  {
    s' := DebitsUser(cfg, past, s1, req, |s.ops|, n);
  }

  /** A settle with both updates committed. */
  lemma SettleCommits(cfg: Config, past: seq<Action>, s: State, req: Request) returns (s': State)
    requires LeadsTo(cfg, past, s) && req.Settle? && ReleasePossible(s, req)
    ensures LeadsTo(cfg, past + Alone(req, |s.ops|, 5 + ModelRuns(s, req.model)), s') && Committed(s, s', req)
    ensures s'.ops[|s.ops|].seenModel == ModelNow(s, req.model)
    ensures var (u, m) := (s.escrows[req.escrowId].user, ModelNow(s, req.model));
            && s'.wallets == s.wallets[u := Wallet(s.wallets[u].available, s.wallets[u].escrow - req.amount,
                                                   s.wallets[u].version + 1)]
            && s'.models == s.models[req.model := ModelWallet(m.earned + req.amount, m.version + 1)]
  {
    var s1 := SettleCredits(cfg, past, s, req);
    s' := SettleDebits(cfg, past, s, s1, req, 3 + ModelRuns(s, req.model));
  }

  /** A settle that nobody disturbs takes the amount from the user's escrow, credits the model,
      marks its item settled, and records it. */
  lemma SettleCompletes(cfg: Config, past: seq<Action>, s: State, req: Request) returns (s': State)
    requires LeadsTo(cfg, past, s) && req.Settle? && ReleasePossible(s, req)
    ensures LeadsTo(cfg, past + Alone(req, |s.ops|, 7 + ModelRuns(s, req.model)), s') && Returns(s, s')
    ensures var (item, m) := (s.escrows[req.escrowId], ModelNow(s, req.model));
            var w := s.wallets[item.user];
            s' == s.(ops := s'.ops, log := s'.log, claims := s.claims + {(SettleScope, req.key)},
                     wallets := s.wallets[item.user := Wallet(w.available, w.escrow - req.amount, w.version + 1)],
                     models := s.models[req.model := ModelWallet(m.earned + req.amount, m.version + 1)],
                     escrows := s.escrows[req.escrowId := item.(status := Settled, owner := None)],
                     ledger := Entered(s.ledger, Entry(FirstKey(req), Earned(req.model), req.amount, m.earned,
                                                       m.earned + req.amount)))
  {
    var s1 := SettleCommits(cfg, past, s, req);
    s' := FinishesOne(cfg, past, s, s1, req, 5 + ModelRuns(s, req.model));
    OneEntry(s1.ops[|s.ops|]);
  }

  /** A ledger that has been given an entry for a part, when the part is not zero. */
  function EnteredPart(ledger: seq<Entry>, e: Entry): seq<Entry> { if e.amount == 0 then ledger else Entered(ledger, e) }

  /** The two entries of a partial settle. */
  function RefundPart(r: Request, w: Wallet): Entry
    requires r.Partial?
  {
    Entry(FirstKey(r), Available(r.user), r.refund, w.available, w.available + r.refund)
  }

  function SettlePart(r: Request, m: ModelWallet): Entry
    requires r.Partial?
  {
    Entry(SecondKey(r), Earned(r.model), r.settle, m.earned, m.earned + r.settle)
  }

  /** A ledger that has been given both. */
  function EnteredParts(ledger: seq<Entry>, r: Request, w: Wallet, m: ModelWallet): seq<Entry>
    requires r.Partial?
  {
    EnteredPart(EnteredPart(ledger, RefundPart(r, w)), SettlePart(r, m))
  }

  lemma PartOne(op: Op)
    requires op.req.Partial? && op.user == op.req.user
    ensures FirstEntry(op) == RefundPart(op.req, op.seen)
  {
  }

  lemma PartTwo(op: Op)
    requires op.req.Partial?
    ensures SecondEntry(op) == SettlePart(op.req, op.seenModel)
  {
  }

  lemma PartEntries(ledger: seq<Entry>, op: Op)
    requires op.req.Partial? && op.user == op.req.user
    ensures EnteredPart(EnteredPart(ledger, FirstEntry(op)), SecondEntry(op))
            == EnteredParts(ledger, op.req, op.seen, op.seenModel)
  {
    PartOne(op);
    PartTwo(op);
  }

  /** The last steps of a partial settle. */
  lemma FinishesFirst(cfg: Config, past: seq<Action>, s: State, s1: State, req: Request, n: nat) returns (s': State)
    requires req.Partial? && !req.refused
    requires req.escrowId in s.escrows && Committed(s, s1, req) && LeadsTo(cfg, past + Alone(req, |s.ops|, n), s1)
    ensures LeadsTo(cfg, past + Alone(req, |s.ops|, n + 2), s') && |s'.ops| == |s.ops| + 1 && s'.ops[..|s.ops|] == s.ops
    ensures var op := s1.ops[|s.ops|];
            && s'.ops[|s.ops|] == op.(pc := WriteSecond, first := s'.ops[|s.ops|].first)
            && s' == s1.(ops := s'.ops, ledger := EnteredPart(s.ledger, FirstEntry(op)), escrows := s'.escrows)
    ensures s'.escrows == s.escrows[req.escrowId := s.escrows[req.escrowId].(status := Settled, owner := None)]
  {
    var i := |s.ops|;
    var s2 := FinalizesItem(cfg, past + Alone(req, i, n), s1, i, req.escrowId);
    AloneNext(past, req, i, n);
    s' := RecordsFirst(cfg, past + Alone(req, i, n + 1), s2, i);
    AloneNext(past, req, i, n + 1);
    assert FirstEntry(s2.ops[i]) == FirstEntry(s1.ops[i]);
  }

  lemma FinishesBoth(cfg: Config, past: seq<Action>, s: State, s1: State, req: Request, n: nat) returns (s': State)
    requires req.Partial? && !req.refused && req.escrowId in s.escrows && req.user == s.escrows[req.escrowId].user
    requires req.escrowId in s.escrows && Committed(s, s1, req) && LeadsTo(cfg, past + Alone(req, |s.ops|, n), s1)
    ensures LeadsTo(cfg, past + Alone(req, |s.ops|, n + 3), s') && Returns(s, s')
    ensures var op := s1.ops[|s.ops|];
            s' == s1.(ops := s'.ops, ledger := EnteredParts(s.ledger, req, op.seen, op.seenModel),
                      escrows := s.escrows[req.escrowId := s.escrows[req.escrowId].(status := Settled, owner := None)])
  {
    var i := |s.ops|;
    var s2 := FinishesFirst(cfg, past, s, s1, req, n);
    s' := RecordsSecond(cfg, past + Alone(req, i, n + 2), s2, i);
    AloneNext(past, req, i, n + 2);
    assert SecondEntry(s2.ops[i]) == SecondEntry(s1.ops[i]);
    PartEntries(s.ledger, s1.ops[i]);
  }

  /** The call of a partial settle that has read both wallets. */
  function ReadBoth(s: State, req: Request): Op
    requires req.Partial? && req.escrowId in s.escrows && req.user in s.wallets
  {
    LockedOp(s, req).(seen := s.wallets[req.user], seenModel := ModelNow(s, req.model), pc := CasUser)
  }

  /** A partial settle that has read both wallets. */
  lemma PartialReads(cfg: Config, past: seq<Action>, s: State, req: Request) returns (s': State)
    requires LeadsTo(cfg, past, s) && req.Partial? && ReleasePossible(s, req)
    ensures LeadsTo(cfg, past + Alone(req, |s.ops|, 3 + ModelRuns(s, req.model)), s')
    ensures var m := ModelNow(s, req.model);
            s' == LockedBy(s, req, ReadBoth(s, req)).(models := s.models[req.model := m])
  {
    var i := |s.ops|;
    var s1 := ReleaseLocks(cfg, past, s, req);
    var s2 := ReadsUser(cfg, past + Alone(req, i, 2), s1, i);
    AloneNext(past, req, i, 2);
    s' := FindsModel(cfg, past, s2, req, i, 3);
    assert s'.ops == s.ops + [s'.ops[i]];
  }

  /** Its two updates. */
  lemma PartialDebits(cfg: Config, past: seq<Action>, s: State, s1: State, req: Request, n: nat) returns (s': State)
    requires req.Partial? && ReleasePossible(s, req) && LeadsTo(cfg, past + Alone(req, |s.ops|, n), s1)
    requires s1 == LockedBy(s, req, ReadBoth(s, req)).(models := s.models[req.model := ModelNow(s, req.model)])
    ensures LeadsTo(cfg, past + Alone(req, |s.ops|, n + 1), s')
    ensures var (w, op) := (s.wallets[req.user], ReadBoth(s, req));
            s' == LockedBy(s, req, op.(userDone := true, pc := CasModel))
                  .(models := s1.models, log := s'.log,
                    wallets := s.wallets[req.user := Wallet(w.available + req.refund, w.escrow - req.refund - req.settle,
                                                            w.version + 1)])
  {
    var i := |s.ops|;
    s' := WinsUser(cfg, past + Alone(req, i, n), s1, i);
    AloneNext(past, req, i, n);
    assert s'.ops == s.ops + [s'.ops[i]];
  }

  lemma PartialCredits(cfg: Config, past: seq<Action>, s: State, s1: State, req: Request, n: nat) returns (s': State)
    requires req.Partial? && ReleasePossible(s, req) && LeadsTo(cfg, past + Alone(req, |s.ops|, n), s1)
    requires s1 == LockedBy(s, req, ReadBoth(s, req).(userDone := true, pc := CasModel))
                   .(models := s.models[req.model := ModelNow(s, req.model)], log := s1.log, wallets := s1.wallets)
    ensures LeadsTo(cfg, past + Alone(req, |s.ops|, n + 1), s') && Committed(s, s', req)
    ensures s'.ops[|s.ops|].seenModel == ModelNow(s, req.model) && s'.ops[|s.ops|].seen == s.wallets[req.user]
    ensures var m := ModelNow(s, req.model);
            && s'.wallets == s1.wallets
            && s'.models == s.models[req.model := ModelWallet(m.earned + req.settle, m.version + 1)]
  {
    var i := |s.ops|;
    s' := WinsModel(cfg, past + Alone(req, i, n), s1, i);
    AloneNext(past, req, i, n);
  }

  /** A partial settle with both updates committed. */
  lemma PartialCommits(cfg: Config, past: seq<Action>, s: State, req: Request) returns (s': State)
    requires LeadsTo(cfg, past, s) && req.Partial? && ReleasePossible(s, req)
    ensures LeadsTo(cfg, past + Alone(req, |s.ops|, 5 + ModelRuns(s, req.model)), s') && Committed(s, s', req)
    ensures s'.ops[|s.ops|].seenModel == ModelNow(s, req.model) && s'.ops[|s.ops|].seen == s.wallets[req.user]
    ensures var (m, w) := (ModelNow(s, req.model), s.wallets[req.user]);
            && s'.wallets == s.wallets[req.user := Wallet(w.available + req.refund, w.escrow - req.refund - req.settle,
                                                          w.version + 1)]
            && s'.models == s.models[req.model := ModelWallet(m.earned + req.settle, m.version + 1)]
  {
    var n := 3 + ModelRuns(s, req.model);
    var s1 := PartialReads(cfg, past, s, req);
    var s2 := PartialDebits(cfg, past, s, s1, req, n);
    s' := PartialCredits(cfg, past, s, s2, req, n + 1);
  }

  /** A partial settle that nobody disturbs gives the user one part back and the model the
      other, marks its item settled, and records each part that is not zero. */
  lemma PartialCompletes(cfg: Config, past: seq<Action>, s: State, req: Request) returns (s': State)
    requires LeadsTo(cfg, past, s) && req.Partial? && ReleasePossible(s, req)
    ensures LeadsTo(cfg, past + Alone(req, |s.ops|, 8 + ModelRuns(s, req.model)), s') && Returns(s, s')
    ensures var (item, m, w) := (s.escrows[req.escrowId], ModelNow(s, req.model), s.wallets[req.user]);
            && s'.config == s.config && s'.claims == s.claims + {(PartialScope, req.key)}
            && s'.wallets == s.wallets[req.user := Wallet(w.available + req.refund, w.escrow - item.amount, w.version + 1)]
            && s'.models == s.models[req.model := ModelWallet(m.earned + req.settle, m.version + 1)]
            && s'.escrows == s.escrows[req.escrowId := item.(status := Settled, owner := None)]
            && s'.ledger == EnteredParts(s.ledger, req, w, m)
  {
    var s1 := PartialCommits(cfg, past, s, req);
    s' := FinishesBoth(cfg, past, s, s1, req, 5 + ModelRuns(s, req.model));
  }

  // ------------------------------------------------------- undisturbed direct writers

  /** A direct writer that has read its wallet; the wallet is still as it was read. */
  predicate DirectReady(s: State, s1: State, req: Request) {
    var i := |s.ops|;
    && !IsEscrow(req) && !Refuses(req) && |s1.ops| == i + 1 && s1.ops[..i] == s.ops
    && s1.ops[i].req == req && s1.ops[i].pc == CasUser && s1.ops[i].user == req.user && req.user in s1.wallets
    && s1.ops[i].seen == s1.wallets[req.user] && AvailableDelta(s1.ops[i]) != 0
    && (req.Deduct? ==> req.amount <= s1.ops[i].seen.available)
  }

  /** Its last two steps. */
  lemma FinishesUpdate(cfg: Config, past: seq<Action>, s: State, s1: State, req: Request) returns (s': State)
    requires DirectReady(s, s1, req) && LeadsTo(cfg, past, s1)
    ensures LeadsTo(cfg, past + [Run(|s.ops|, "", 0)] + [Run(|s.ops|, "", 0)], s') && Returns(s, s')
    ensures var (op, u) := (s1.ops[|s.ops|], req.user);
            var (w, d) := (op.seen, AvailableDelta(op));
            s' == s1.(ops := s'.ops, log := s'.log,
                      wallets := s1.wallets[u := Wallet(w.available + d, w.escrow, w.version + 1)],
                      ledger := Entered(s1.ledger, Entry(FirstKey(req), Available(u), d, w.available, w.available + d)))
  {
    var i := |s.ops|;
    var s2 := WinsUser(cfg, past, s1, i);
    OneEntry(s2.ops[i]);
    s' := RecordsFirst(cfg, past + [Run(i, "", 0)], s2, i);
  }

  lemma FinishesDirect(cfg: Config, past: seq<Action>, s: State, s1: State, req: Request, n: nat) returns (s': State)
    requires DirectReady(s, s1, req) && LeadsTo(cfg, past + Alone(req, |s.ops|, n), s1)
    ensures LeadsTo(cfg, past + Alone(req, |s.ops|, n + 2), s') && Returns(s, s')
    ensures var (op, u) := (s1.ops[|s.ops|], req.user);
            var (w, d) := (op.seen, AvailableDelta(op));
            s' == s1.(ops := s'.ops, log := s'.log,
                      wallets := s1.wallets[u := Wallet(w.available + d, w.escrow, w.version + 1)],
                      ledger := Entered(s1.ledger, Entry(FirstKey(req), Available(u), d, w.available, w.available + d)))
  {
    s' := FinishesUpdate(cfg, past + Alone(req, |s.ops|, n), s, s1, req);
    AloneNext(past, req, |s.ops|, n);
    AloneNext(past, req, |s.ops|, n + 1);
  }

  /** A direct writer other than an award that has read its wallet. */
  lemma DirectReads(cfg: Config, past: seq<Action>, s: State, req: Request) returns (s': State)
    requires LeadsTo(cfg, past, s) && (req.Deduct? || req.Adjust?) && Admissible(s.config, req) && req.user in s.wallets
    requires req.Deduct? ==> req.amount <= s.wallets[req.user].available
    requires req.Adjust? ==> s.wallets[req.user].available + req.amount >= 0
    ensures LeadsTo(cfg, past + Alone(req, |s.ops|, 1), s')
    ensures s' == s.(ops := s.ops + [NewOp(s.config, req).(pc := CasUser, seen := s.wallets[req.user])])
  {
    var i := |s.ops|;
    var s0 := Begins(cfg, past, s, req);
    assert past + [Begin(req)] == past + Alone(req, i, 0);
    s' := ReadsUser(cfg, past + Alone(req, i, 0), s0, i);
    AloneNext(past, req, i, 0);
    assert s'.ops == s.ops + [s'.ops[i]];
  }

  /** A deduction that nobody disturbs succeeds whenever the amount is admitted, the wallet
      covers it, down to the last point, and the ledger accepts the metadata. */
  lemma DeductCompletes(cfg: Config, past: seq<Action>, s: State, req: Request) returns (s': State)
    requires LeadsTo(cfg, past, s) && req.Deduct? && !req.refused && s.config.maxAttempts > 0
    requires 1 <= req.amount <= s.config.maxAmount && req.user in s.wallets && req.amount <= s.wallets[req.user].available
    ensures LeadsTo(cfg, past + Alone(req, |s.ops|, 3), s') && Returns(s, s')
    ensures var w := s.wallets[req.user];
            s' == s.(ops := s'.ops, log := s'.log,
                     wallets := s.wallets[req.user := Wallet(w.available - req.amount, w.escrow, w.version + 1)],
                     ledger := Entered(s.ledger, Entry(FirstKey(req), Available(req.user), -req.amount, w.available,
                                                       w.available - req.amount)))
  {
    var s1 := DirectReads(cfg, past, s, req);
    s' := FinishesDirect(cfg, past, s, s1, req, 1);
  }

  /** Likewise an adjustment of either sign that leaves no debt. */
  lemma AdjustCompletes(cfg: Config, past: seq<Action>, s: State, req: Request) returns (s': State)
    requires LeadsTo(cfg, past, s) && req.Adjust? && !req.refused
    requires req.amount != 0 && -s.config.maxAmount <= req.amount <= s.config.maxAmount
    requires req.user in s.wallets && s.wallets[req.user].available + req.amount >= 0
    ensures LeadsTo(cfg, past + Alone(req, |s.ops|, 3), s') && Returns(s, s')
    ensures var w := s.wallets[req.user];
            s' == s.(ops := s'.ops, log := s'.log,
                     wallets := s.wallets[req.user := Wallet(w.available + req.amount, w.escrow, w.version + 1)],
                     ledger := Entered(s.ledger, Entry(FirstKey(req), Available(req.user), req.amount, w.available,
                                                       w.available + req.amount)))
  {
    var s1 := DirectReads(cfg, past, s, req);
    s' := FinishesDirect(cfg, past, s, s1, req, 1);
  }

  /** The database calls an award makes before its update. */
  function WalletRuns(s: State, u: UserId): nat { if u in s.wallets then 1 else 2 }

  /** An award that has its wallet in hand. */
  lemma AwardReads(cfg: Config, past: seq<Action>, s: State, req: Request) returns (s': State)
    requires LeadsTo(cfg, past, s) && req.Award? && Admissible(s.config, req)
    ensures LeadsTo(cfg, past + Alone(req, |s.ops|, WalletRuns(s, req.user)), s')
    ensures var w := WalletNow(s, req.user);
            s' == s.(ops := s.ops + [NewOp(s.config, req).(pc := CasUser, seen := w)], wallets := s.wallets[req.user := w])
  {
    var i := |s.ops|;
    var s0 := Begins(cfg, past, s, req);
    assert past + [Begin(req)] == past + Alone(req, i, 0);
    AloneNext(past, req, i, 0);
    AloneNext(past, req, i, 1);
    if req.user in s.wallets {
      s' := ReadsUser(cfg, past + Alone(req, i, 0), s0, i);
      assert s.wallets[req.user := s.wallets[req.user]] == s.wallets;
    } else {
      var s1 := FindsNoUser(cfg, past + Alone(req, i, 0), s0, i);
      s' := CreatesWallet(cfg, past + Alone(req, i, 1), s1, i);
    }
    assert s'.ops == s.ops + [s'.ops[i]];
  }

  /** An award that nobody disturbs succeeds, with or without a wallet to begin with. */
  lemma AwardCompletes(cfg: Config, past: seq<Action>, s: State, req: Request) returns (s': State)
    requires LeadsTo(cfg, past, s) && req.Award? && !req.refused && s.config.maxAttempts > 0
    requires 1 <= req.amount <= s.config.maxAmount
    ensures LeadsTo(cfg, past + Alone(req, |s.ops|, 2 + WalletRuns(s, req.user)), s') && Returns(s, s')
    ensures var w := WalletNow(s, req.user);
            s' == s.(ops := s'.ops, log := s'.log,
                     wallets := s.wallets[req.user := Wallet(w.available + req.amount, w.escrow, w.version + 1)],
                     ledger := Entered(s.ledger, Entry(FirstKey(req), Available(req.user), req.amount, w.available,
                                                       w.available + req.amount)))
  {
    var s1 := AwardReads(cfg, past, s, req);
    s' := FinishesDirect(cfg, past, s, s1, req, WalletRuns(s, req.user));
  }

  /** An expiry that has read its wallet. */
  lemma ExpireReads(cfg: Config, past: seq<Action>, s: State, req: Request, expirable: nat) returns (s': State)
    requires LeadsTo(cfg, past, s) && req.Expire? && req.user in s.wallets
    requires expirable > 0 && s.wallets[req.user].available > 0
    ensures LeadsTo(cfg, past + [Begin(req)] + [Run(|s.ops|, "", expirable)], s')
    ensures var w := s.wallets[req.user];
            var amount := if expirable < w.available then expirable else w.available;
            s' == s.(ops := s.ops + [NewOp(s.config, req).(pc := CasUser, seen := w, expiring := amount)])
  {
    var i := |s.ops|;
    var s0 := Begins(cfg, past, s, req);
    LeadsOn(cfg, past + [Begin(req)], s0, Run(i, "", expirable));
    s' := Step(s0, Run(i, "", expirable));
    assert s'.ops == s.ops + [s'.ops[i]];
  }

  /** An expiry that nobody disturbs takes what has expired, down to an empty wallet. */
  lemma ExpireCompletes(cfg: Config, past: seq<Action>, s: State, req: Request, expirable: nat) returns (s': State)
    requires LeadsTo(cfg, past, s) && req.Expire? && req.user in s.wallets
    requires expirable > 0 && s.wallets[req.user].available > 0
    ensures var i := |s.ops|;
            LeadsTo(cfg, past + [Begin(req)] + [Run(i, "", expirable)] + [Run(i, "", 0)] + [Run(i, "", 0)], s')
    ensures Returns(s, s')
    ensures var w := s.wallets[req.user];
            var amount := if expirable < w.available then expirable else w.available;
            s' == s.(ops := s'.ops, log := s'.log,
                     wallets := s.wallets[req.user := Wallet(w.available - amount, w.escrow, w.version + 1)],
                     ledger := Entered(s.ledger, Entry(FirstKey(req), Available(req.user), -amount, w.available,
                                                       w.available - amount)))
  {
    var s1 := ExpireReads(cfg, past, s, req, expirable);
    s' := FinishesUpdate(cfg, past + [Begin(req)] + [Run(|s.ops|, "", expirable)], s, s1, req);
  }
}
