/** What every call keeps about itself: which of its writes have happened at each
    program counter, its retry bound and its total back-off. */
module EscrowLocal {
  import opened EscrowProtocol

  /** Which kinds of call visit which program counters. */
  predicate Kind(op: Op) {
    match op.pc
    case Claim | Rejected => IsEscrow(op.req)
    case LockItem | ReleaseItem | FinalizeItem | Stuck => IsRelease(op.req)
    case CreateUser => op.req.Hold? || op.req.Award?
    case InsertItem | DeleteItem => op.req.Hold?
    case ReadModel | CreateModel | CasModel => HasModel(op.req)
    case WriteSecond => HasSecond(op.req)
    case _ => true
  }

  /** Which compare-and-swaps have been committed at each program counter. */
  predicate Progress(op: Op) {
    match op.pc
    case ReadUser | CasUser => !op.userDone && (op.modelDone <==> op.req.Settle?)
    case CasModel => !op.modelDone && (op.userDone <==> op.req.Partial?)
    case ReleaseItem => (op.modelDone <==> op.req.Settle?) && (op.userDone ==> op.req.Partial?)
    case FinalizeItem | WriteFirst | WriteSecond | EntryRefused => op.userDone && (op.modelDone <==> HasModel(op.req))
    case Done => (op.userDone || op.req.Expire?) && (op.modelDone <==> HasModel(op.req))
    case Failed => (op.userDone ==> op.req.Partial?) && (op.modelDone ==> op.req.Settle?)
    case Stuck => !op.userDone && (op.modelDone ==> op.req.Settle?)
    case _ => !op.userDone && !op.modelDone
  }

  /** Ledger entries are written last, each at its own program counter, and only when the
      ledger accepts them. */
  predicate Fates(op: Op) {
    && (op.first != Pending ==> op.userDone && !Refuses(op.req) && (op.pc == WriteSecond || op.pc == Done))
    && (op.second != Pending ==> op.userDone && !Refuses(op.req) && op.pc == Done && HasSecond(op.req))
    && (op.pc == EntryRefused ==> Refuses(op.req))
    && (op.userDone && (op.pc == WriteSecond || op.pc == Done) && FirstAmount(op) != 0 ==> op.first != Pending)
    && (op.userDone && op.pc == Done && HasSecond(op.req) && SecondAmount(op.req) != 0 ==> op.second != Pending)
  }

  /** Retries: the counter stays under its bound, and the time slept is the geometric
      sum of the back-offs. */
  predicate Retries(cfg: Config, op: Op) {
    if op.req.Hold? then
      && (op.attempts < cfg.maxAttempts || op.attempts == 0)
      && op.slept == Backoff(cfg.backoffMs, op.attempts + 1) - 2 * cfg.backoffMs
    else if op.req.Award? || op.req.Deduct? then
      && op.attempts <= cfg.maxAttempts
      && (op.attempts == cfg.maxAttempts ==> op.pc == Failed)
      && op.slept == Backoff(cfg.backoffMs, op.attempts) - cfg.backoffMs
    else op.attempts == 0 && op.slept == 0
  }

  /** The checks made on what was read. */
  predicate Guards(op: Op) {
    match op.req
    case Hold(_, amount, _, _, _) =>
      amount > 0 && (op.pc == InsertItem || op.pc == CasUser ==> op.seen.available >= amount)
    case Partial(_, _, _, refund, settle, _, _) => refund >= 0 && settle >= 0
    case Award(_, amount, _, _) => op.pc != Failed ==> amount > 0
    case Deduct(_, amount, _, _) => (op.pc != Failed ==> amount > 0) && (op.pc == CasUser ==> op.seen.available >= amount)
    case Expire(_, _) => op.pc == CasUser || op.userDone ==> 0 < op.expiring <= op.seen.available
    case Adjust(_, amount, _, _) =>
      (op.pc != Failed ==> amount != 0) && (op.pc == CasUser ==> op.seen.available + amount >= 0)
    case _ => true
  }

  predicate Local(op: Op) { Kind(op) && Progress(op) && Fates(op) && Guards(op) }

  lemma {:induction false} BackoffGrows(ms: nat, a: nat, b: nat)
    requires a <= b
    ensures Backoff(ms, a) <= Backoff(ms, b)
    decreases b
  {
    if a < b {
      BackoffGrows(ms, a, b - 1);
    }
  }

  lemma {:induction false} BackoffIsPower(ms: nat, n: nat)
    ensures Backoff(ms, n) == ms * Pow2(n)
  {
    if n > 0 {
      BackoffIsPower(ms, n - 1);
      assert ms * (2 * Pow2(n - 1)) == 2 * (ms * Pow2(n - 1));
    }
  }

  lemma LocalClaim(s: State, op: Op)
    requires Local(op) && op.pc == Claim
    ensures Local(ClaimStep(s, op).0)
  {
  }

  lemma LocalLock(s: State, i: nat, op: Op)
    requires Local(op) && op.pc == LockItem
    ensures Local(LockStep(s, i, op).0)
  {
  }

  lemma LocalHave(op: Op, wallet: Wallet, expirable: nat)
    requires Local(op) && (op.pc == ReadUser || op.pc == CreateUser)
    ensures Local(AfterRead(op, wallet, expirable))
  {
  }

  lemma LocalRead(s: State, op: Op, expirable: nat)
    requires Local(op) && op.pc == ReadUser
    ensures Local(ReadUserStep(s, op, expirable).0)
  {
    if op.user in s.wallets {
      LocalHave(op, s.wallets[op.user], expirable);
    }
  }

  lemma LocalCreate(s: State, op: Op)
    requires Local(op) && op.pc == CreateUser
    ensures Local(CreateUserStep(s, op).0)
  {
    LocalHave(op, NEW_WALLET, 0);
  }

  lemma LocalModel(s: State, op: Op)
    requires Local(op) && HasModel(op.req)
    ensures op.pc == ReadModel ==> Local(ReadModelStep(s, op).0)
    ensures op.pc == CreateModel ==> Local(CreateModelStep(s, op).0)
    ensures op.pc == CasModel ==> Local(CasModelStep(s, op).0)
  {
  }

  lemma LocalInsert(s: State, i: nat, op: Op, newId: EscrowId)
    requires Local(op) && op.pc == InsertItem
    ensures Local(InsertStep(s, i, op, newId).0)
  {
  }

  lemma LocalStatus(s: State, op: Op)
    requires Local(op)
    ensures op.pc == ReleaseItem ==> Local(SetStatusStep(s, op, Held, Failed).0)
    ensures op.pc == FinalizeItem ==> Local(SetStatusStep(s, op, FinalStatus(op.req), WriteFirst).0)
  {
  }

  lemma LocalCasUser(s: State, op: Op)
    requires Local(op) && op.pc == CasUser
    ensures Local(CasUserStep(s, op).0)
  {
  }

  lemma LocalDelete(s: State, op: Op)
    requires Local(op) && op.pc == DeleteItem
    ensures Local(DeleteStep(s, op).0)
  {
  }

  lemma LocalWriteFirst(s: State, op: Op)
    requires Local(op) && op.pc == WriteFirst
    ensures Local(WriteFirstStep(s, op).0)
  {
  }

  lemma LocalWriteSecond(s: State, op: Op)
    requires Local(op) && op.pc == WriteSecond
    ensures Local(WriteSecondStep(s, op).0)
  {
  }

  lemma LocalStep(s: State, i: nat, newId: EscrowId, expirable: nat)
    requires i < |s.ops| && Local(s.ops[i])
    ensures Local(Advance(s, i, newId, expirable).0)
  {
    var op := s.ops[i];
    match op.pc
    case Claim => LocalClaim(s, op);
    case LockItem => LocalLock(s, i, op);
    case ReadUser => LocalRead(s, op, expirable);
    case CreateUser => LocalCreate(s, op);
    case ReadModel | CreateModel | CasModel => LocalModel(s, op);
    case InsertItem => LocalInsert(s, i, op, newId);
    case ReleaseItem | FinalizeItem => LocalStatus(s, op);
    case CasUser => LocalCasUser(s, op);
    case DeleteItem => LocalDelete(s, op);
    case WriteFirst => LocalWriteFirst(s, op);
    case WriteSecond => LocalWriteSecond(s, op);
    case _ =>
  }

  ghost predicate AllLocal(s: State) {
    forall i :: 0 <= i < |s.ops| ==> Local(s.ops[i])
  }

  ghost predicate AllRetries(s: State) {
    forall i :: 0 <= i < |s.ops| ==> Retries(s.config, s.ops[i])
  }

  lemma RetriesCasUser(s: State, op: Op)
    requires Local(op) && Retries(s.config, op) && op.pc == CasUser
    ensures Retries(s.config, CasUserStep(s, op).0)
  {
  }

  lemma RetriesDelete(s: State, op: Op)
    requires Local(op) && Retries(s.config, op) && op.pc == DeleteItem
    ensures Retries(s.config, DeleteStep(s, op).0)
  {
  }

  /** No other step counts a retry. */
  lemma RetriesElse(s: State, i: nat, newId: EscrowId, expirable: nat)
    requires i < |s.ops| && s.ops[i].pc != CasUser && s.ops[i].pc != DeleteItem
    ensures var (op, op') := (s.ops[i], Advance(s, i, newId, expirable).0);
            op'.req == op.req && op'.attempts == op.attempts && op'.slept == op.slept
  {
  }

  lemma RetriesStep(s: State, i: nat, newId: EscrowId, expirable: nat)
    requires i < |s.ops| && Local(s.ops[i]) && Retries(s.config, s.ops[i]) && !Terminal(s.ops[i].pc)
    ensures Retries(s.config, Advance(s, i, newId, expirable).0)
  {
    var op := s.ops[i];
    if op.pc == CasUser {
      RetriesCasUser(s, op);
    } else if op.pc == DeleteItem {
      RetriesDelete(s, op);
    } else {
      RetriesElse(s, i, newId, expirable);
    }
  }

  lemma LocalNew(s: State, req: Request)
    requires Honest(s, req)
    ensures Local(NewOp(s.config, req))
  {
  }
}
