/** When a call takes each of its branches, in every reachable state and with any other calls
    in progress: the guards, told from what is in the database and what the call has read. */
module EscrowGuards {
  import opened EscrowProtocol
  import opened EscrowLocal
  import opened EscrowSteps
  import opened EscrowTheorems
  import opened EscrowStuck

  // ----------------------------------------------------------- winning and losing updates

  /** The user's wallet still has the version that the call read. */
  predicate UserUnchanged(s: State, op: Op) { op.user in s.wallets && s.wallets[op.user].version == op.seen.version }

  predicate ModelUnchanged(s: State, op: Op)
    requires HasModel(op.req)
  {
    op.req.model in s.models && s.models[op.req.model].version == op.seenModel.version
  }

  /** A deduction also asks again whether the balance covers it. */
  predicate WinsNext(s: State, op: Op) {
    op.pc == CasUser && UserUnchanged(s, op) && (op.req.Deduct? ==> s.wallets[op.user].available >= op.req.amount)
  }

  predicate CreditsNext(s: State, op: Op) { op.pc == CasModel && HasModel(op.req) && ModelUnchanged(s, op) }

  /** In every reachable state a call's next step commits the user's side if and only if the
      wallet still has the version read, and the model's side likewise. */
  lemma CommitsExactly(s: State, i: nat, newId: EscrowId, expirable: nat)
    requires Reachable(s) && Enabled(s, Run(i, newId, expirable))
    ensures var (op, op') := (s.ops[i], Step(s, Run(i, newId, expirable)).ops[i]);
            && (!op.userDone && op'.userDone <==> WinsNext(s, op))
            && (!op.modelDone && op'.modelDone <==> CreditsNext(s, op))
  {
    AllPrepared(s, i);
    RunStep(s, i, newId, expirable);
    CommitsLocally(s, i, newId, expirable);
  }

  lemma CommitsLocally(s: State, i: nat, newId: EscrowId, expirable: nat)
    requires i < |s.ops| && Local(s.ops[i]) && !Terminal(s.ops[i].pc)
    ensures var (op, op') := (s.ops[i], Advance(s, i, newId, expirable).0);
            && (!op.userDone && op'.userDone <==> WinsNext(s, op))
            && (!op.modelDone && op'.modelDone <==> CreditsNext(s, op))
  {
  }

  /** What a release loses: the user's wallet, or a partial settle the model's, has another
      version than the one read. */
  predicate LosesNext(s: State, op: Op) {
    || (IsRelease(op.req) && op.pc == CasUser && !UserUnchanged(s, op))
    || (op.req.Partial? && op.pc == CasModel && !ModelUnchanged(s, op))
  }

  /** In every reachable state a release goes to put its item back if and only if a wallet
      has another version than the one it read; a hold goes to delete its item likewise. */
  lemma ReleasesExactly(s: State, i: nat, newId: EscrowId, expirable: nat)
    requires Reachable(s) && Enabled(s, Run(i, newId, expirable))
    ensures var (op, op') := (s.ops[i], Step(s, Run(i, newId, expirable)).ops[i]);
            && (op'.pc == ReleaseItem <==> LosesNext(s, op))
            && (op'.pc == DeleteItem <==> op.req.Hold? && op.pc == CasUser && !UserUnchanged(s, op))
  {
    AllPrepared(s, i);
    RunStep(s, i, newId, expirable);
    ReleasesLocally(s, i, newId, expirable);
  }

  lemma ReleasesLocally(s: State, i: nat, newId: EscrowId, expirable: nat)
    requires i < |s.ops| && Local(s.ops[i]) && !Terminal(s.ops[i].pc)
    ensures var (op, op') := (s.ops[i], Advance(s, i, newId, expirable).0);
            && (op'.pc == ReleaseItem <==> LosesNext(s, op))
            && (op'.pc == DeleteItem <==> op.req.Hold? && op.pc == CasUser && !UserUnchanged(s, op))
  {
  }

  // ------------------------------------------------------------------------- retrying

  /** An attempt that lost its wallet is followed by another: of a hold or of a counted
      direct writer while the bound allows it, of an uncounted one always. */
  predicate RetriesNext(s: State, op: Op) {
    match op.req
    case Hold(_, _, _, _, _) => op.pc == DeleteItem && op.attempts + 1 < s.config.maxAttempts
    case Award(_, _, _, _) => op.pc == CasUser && !WinsNext(s, op) && op.attempts + 1 < s.config.maxAttempts
    case Deduct(_, _, _, _) => op.pc == CasUser && !WinsNext(s, op) && op.attempts + 1 < s.config.maxAttempts
    case Expire(_, _) => op.pc == CasUser && !WinsNext(s, op)
    case Adjust(_, _, _, _) => op.pc == CasUser && !WinsNext(s, op)
    case _ => false
  }

  /** In every reachable state a call goes back to reading its wallet if and only if it has
      lost it and may try again. */
  lemma RetriesExactly(s: State, i: nat, newId: EscrowId, expirable: nat)
    requires Reachable(s) && Enabled(s, Run(i, newId, expirable))
    ensures var (op, op') := (s.ops[i], Step(s, Run(i, newId, expirable)).ops[i]);
            (op.pc == CasUser || op.pc == DeleteItem) && op'.pc == ReadUser <==> RetriesNext(s, op)
  {
    AllPrepared(s, i);
    RunStep(s, i, newId, expirable);
    RetriesLocally(s, i, newId, expirable);
  }

  lemma RetriesLocally(s: State, i: nat, newId: EscrowId, expirable: nat)
    requires i < |s.ops| && Local(s.ops[i]) && !Terminal(s.ops[i].pc)
    ensures var (op, op') := (s.ops[i], Advance(s, i, newId, expirable).0);
            (op.pc == CasUser || op.pc == DeleteItem) && op'.pc == ReadUser <==> RetriesNext(s, op)
  {
  }

  // -------------------------------------------------------------------------- throwing

  /** The balance that a call has just found does not allow it. */
  predicate TooPoor(req: Request, available: int) {
    match req
    case Hold(_, amount, _, _, _) => available < amount
    case Deduct(_, amount, _, _) => available < amount
    case Adjust(_, amount, _, _) => available + amount < 0
    case _ => false
  }

  /** What makes a call throw with nothing of its own left to undo. */
  predicate FailsNext(s: State, op: Op, expirable: nat) {
    match op.pc
    case Claim => op.req.Hold? && ClaimOf(op.req) !in s.claims && s.config.maxAttempts == 0
    case LockItem => IsRelease(op.req) && !(op.req.escrowId in s.escrows && s.escrows[op.req.escrowId].status == Held)
    case ReadUser =>
      if op.user in s.wallets then TooPoor(op.req, s.wallets[op.user].available)
      else op.req.Deduct? || op.req.Adjust? || (op.req.Expire? && expirable > 0)
    case CreateUser => op.user in s.wallets || op.req.Hold?
    case InsertItem => op.req.Hold? && exists e :: e in s.escrows && s.escrows[e].queueItem == op.req.queueItem
    case CasUser => (op.req.Award? || op.req.Deduct?) && !WinsNext(s, op) && op.attempts + 1 >= s.config.maxAttempts
    case DeleteItem => op.attempts + 1 >= s.config.maxAttempts
    case ReleaseItem => true
    case _ => false
  }

  /** In every reachable state a call's next step loses its claim, fails, or is refused its
      entry, each if and only if its guard says so. */
  lemma ThrowsExactly(s: State, i: nat, newId: EscrowId, expirable: nat)
    requires Reachable(s) && Enabled(s, Run(i, newId, expirable))
    ensures var (op, op') := (s.ops[i], Step(s, Run(i, newId, expirable)).ops[i]);
            && (op'.pc == Rejected <==> op.pc == Claim && ClaimOf(op.req) in s.claims)
            && (op'.pc == Failed <==> FailsNext(s, op, expirable))
            && (op'.pc == EntryRefused <==> RefusesNext(op))
  {
    AllPrepared(s, i);
    RunStep(s, i, newId, expirable);
    ThrowsLocally(s, i, newId, expirable);
  }

  /** The ledger is asked for an entry that is not zero, and refuses. */
  predicate RefusesNext(op: Op) {
    && Refuses(op.req)
    && ((op.pc == WriteFirst && FirstAmount(op) != 0) || (op.pc == WriteSecond && SecondAmount(op.req) != 0))
  }

  lemma ThrowsLocally(s: State, i: nat, newId: EscrowId, expirable: nat)
    requires i < |s.ops| && Prepared(s, s.ops[i]) && !Terminal(s.ops[i].pc)
    ensures var (op, op') := (s.ops[i], Advance(s, i, newId, expirable).0);
            && (op'.pc == Rejected <==> op.pc == Claim && ClaimOf(op.req) in s.claims)
            && (op'.pc == Failed <==> FailsNext(s, op, expirable))
            && (op'.pc == EntryRefused <==> RefusesNext(op))
  {
    match s.ops[i].pc
    case ReadUser => assert IsRelease(s.ops[i].req) ==> Owns(s.ops[i]);
    case _ =>
  }

  /** A call goes on with the wallet it found: what it read is what is there. */
  lemma ReadsExactly(s: State, i: nat, newId: EscrowId, expirable: nat)
    requires Reachable(s) && Enabled(s, Run(i, newId, expirable)) && s.ops[i].pc == ReadUser && s.ops[i].user in s.wallets
    requires s.ops[i].req.Expire? ==> expirable > 0
    ensures var (op, op', w) := (s.ops[i], Step(s, Run(i, newId, expirable)).ops[i], s.wallets[s.ops[i].user]);
            && op'.seen == w
            && (op'.pc == InsertItem <==> op.req.Hold? && w.available >= op.req.amount)
            && (op'.pc == ReadModel <==> op.req.Partial?)
            && (op'.pc == Done <==> op.req.Expire? && w.available <= 0)
            && (op'.pc == CasUser <==>
                  || op.req.Settle? || op.req.Refund? || op.req.Award?
                  || (op.req.Deduct? && w.available >= op.req.amount)
                  || (op.req.Adjust? && w.available + op.req.amount >= 0)
                  || (op.req.Expire? && w.available > 0))
  {
    RunStep(s, i, newId, expirable);
  }

  /** A direct writer is refused at once if and only if its amount is out of bounds or no
      attempt is allowed. */
  lemma AdmitsExactly(cfg: Config, req: Request)
    requires !IsEscrow(req)
    ensures NewOp(cfg, req).pc == Failed <==>
              match req
              case Award(_, amount, _, _) => amount < 1 || amount > cfg.maxAmount || cfg.maxAttempts == 0
              case Deduct(_, amount, _, _) => amount < 1 || amount > cfg.maxAmount || cfg.maxAttempts == 0
              case Adjust(_, amount, _, _) => amount == 0 || amount < -cfg.maxAmount || amount > cfg.maxAmount
              case _ => false
  {
  }
}
