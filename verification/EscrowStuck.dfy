/** Calls that throw without releasing their item: when they get there, and that the item
    stays locked for ever. */
module EscrowStuck {
  import opened Options
  import opened EscrowProtocol
  import opened EscrowLocal
  import opened EscrowSteps
  import opened EscrowItems
  import opened EscrowTheorems

  // ------------------------------------------------------------- wallets that must exist

  /** A committed call's user has a wallet. */
  predicate HasWallet(s: State, op: Op) { op.userDone ==> op.user in s.wallets }

  ghost predicate AllHaveWallets(s: State) { forall i :: 0 <= i < |s.ops| ==> HasWallet(s, s.ops[i]) }

  lemma WalletsGrow(s: State, i: nat, op': Op, write: Write)
    requires Ready(s, i, op', write)
    ensures var s' := Perform(s, i, op', write);
            s.wallets.Keys <= s'.wallets.Keys && (HasWallet(s, s.ops[i]) ==> HasWallet(s', op'))
  {
    ShapeKeeps(s, i, s.ops[i], op', write);
  }

  lemma WalletsPerform(s: State, i: nat, op': Op, write: Write)
    requires Ready(s, i, op', write) && AllHaveWallets(s)
    ensures AllHaveWallets(Perform(s, i, op', write))
  {
    var s' := Perform(s, i, op', write);
    assert s'.ops == s.ops[i := op'];
    WalletsGrow(s, i, op', write);
    forall j | 0 <= j < |s'.ops| ensures HasWallet(s', s'.ops[j]) {
      assert HasWallet(s, s.ops[j]);
    }
  }

  lemma WalletsStep(s: State, a: Action)
    requires Custody(s) && AllHaveWallets(s)
    ensures AllHaveWallets(Step(s, a))
  {
    if Enabled(s, a) && a.Run? {
      StepReady(s, a.i, a.newId, a.expirable);
      var (op', write) := Advance(s, a.i, a.newId, a.expirable);
      WalletsPerform(s, a.i, op', write);
    }
  }

  lemma {:induction false} WalletsHold(cfg: Config, acts: seq<Action>)
    ensures AllHaveWallets(Exec(cfg, acts))
  {
    if acts != [] {
      var n := |acts| - 1;
      WalletsHold(cfg, acts[..n]);
      CustodyHolds(cfg, acts[..n]);
      WalletsStep(Exec(cfg, acts[..n]), acts[n]);
    }
  }

  /** The user of an item that a release owns has a wallet. */
  lemma OwnerFindsWallet(s: State, i: nat)
    requires Custody(s) && AllHaveWallets(s) && i < |s.ops| && Owns(s.ops[i])
    ensures s.ops[i].user in s.wallets
  {
    assert CallOk(s, i);
    var e := s.ops[i].item.value;
    assert ItemOk(s, e);
    assert Local(s.ops[s.escrows[e].maker]) && HasWallet(s, s.ops[s.escrows[e].maker]);
  }

  // -------------------------------------------------------------------- getting stuck

  /** What makes a release throw with its item locked: a settle loses the model wallet or
      the race to create it; a partial settle's parts do not sum to the item's amount, or it
      loses the race to create the model wallet; a refund never does. */
  predicate SticksNext(s: State, op: Op) {
    match op.req
    case Settle(_, model, _, _, _) =>
      || (op.pc == CreateModel && model in s.models)
      || (op.pc == CasModel && !(model in s.models && s.models[model].version == op.seenModel.version))
    case Partial(e, _, model, refund, settle, _, _) =>
      || (op.pc == CreateModel && model in s.models)
      || (op.pc == LockItem && e in s.escrows && s.escrows[e].status == Held && refund + settle != s.escrows[e].amount)
    case _ => false
  }

  /** What the guard relies on: a release names its item, and its user has a wallet. */
  predicate Prepared(s: State, op: Op) {
    && Local(op) && (IsRelease(op.req) ==> op.item == Some(op.req.escrowId)) && (Owns(op) ==> op.user in s.wallets)
  }

  lemma SticksLocally(s: State, i: nat, newId: EscrowId, expirable: nat)
    requires i < |s.ops| && Prepared(s, s.ops[i]) && !Terminal(s.ops[i].pc)
    ensures Advance(s, i, newId, expirable).0.pc == Stuck <==> SticksNext(s, s.ops[i])
  {
    var op := s.ops[i];
    match op.pc
    case ReadUser => assert IsRelease(op.req) ==> Owns(op);
    case _ =>
  }

  lemma AllPrepared(s: State, i: nat)
    requires Reachable(s) && i < |s.ops|
    ensures Prepared(s, s.ops[i])
  {
    var acts := ActsTo(s);
    CustodyHolds(s.config, acts);
    WalletsHold(s.config, acts);
    assert CallOk(s, i);
    if Owns(s.ops[i]) {
      OwnerFindsWallet(s, i);
    }
  }

  lemma RunStep(s: State, i: nat, newId: EscrowId, expirable: nat)
    requires Enabled(s, Run(i, newId, expirable))
    ensures Step(s, Run(i, newId, expirable)).ops == s.ops[i := Advance(s, i, newId, expirable).0]
  {
  }

  /** In every reachable state a running call's next step throws with its item locked if
      and only if its guard says so. */
  lemma StuckExactly(s: State, i: nat, newId: EscrowId, expirable: nat)
    requires Reachable(s) && Enabled(s, Run(i, newId, expirable))
    ensures Step(s, Run(i, newId, expirable)).ops[i].pc == Stuck <==> SticksNext(s, s.ops[i])
  {
    AllPrepared(s, i);
    SticksLocally(s, i, newId, expirable);
    RunStep(s, i, newId, expirable);
  }

  // -------------------------------------------------------------------- staying stuck

  /** A call that has ended is not moved by any action. */
  lemma EndedStays(s: State, a: Action, i: nat)
    requires i < |s.ops| && Terminal(s.ops[i].pc)
    ensures var s' := Step(s, a); i < |s'.ops| && s'.ops[i] == s.ops[i]
  {
  }

  lemma {:induction false} EndedForever(states: seq<State>, acts: seq<Action>, p: nat, q: nat, i: nat)
    requires IsRun(states, acts) && p <= q <= |acts| && i < |states[p].ops| && Terminal(states[p].ops[i].pc)
    ensures i < |states[q].ops| && states[q].ops[i] == states[p].ops[i]
    decreases q
  {
    if p < q {
      EndedForever(states, acts, p, q - 1, i);
      assert Follows(states, acts, q - 1);
      EndedStays(states[q - 1], acts[q - 1], i);
    }
  }

  /** The item the call names, in the call's intermediate status and owned by the call. */
  predicate Locked(s: State, i: nat)
    requires i < |s.ops|
  {
    var op := s.ops[i];
    && op.item.Some? && op.item.value in s.escrows
    && s.escrows[op.item.value].status == BusyStatus(op.req) && s.escrows[op.item.value].owner == Some(i)
  }

  /** A call that has ended keeps its item locked if and only if it is stuck. */
  lemma LockedExactly(s: State, i: nat)
    requires Custody(s) && i < |s.ops| && Terminal(s.ops[i].pc)
    ensures s.ops[i].pc == Stuck <==> Locked(s, i)
  {
    assert CallOk(s, i) && Local(s.ops[i]);
    if s.ops[i].item.Some? && s.ops[i].item.value in s.escrows {
      assert ItemOk(s, s.ops[i].item.value);
    }
  }

  /** In every reachable state a call that has ended keeps its item locked if and only if
      it is stuck. */
  lemma StuckIsLocked(s: State, i: nat)
    requires Reachable(s) && i < |s.ops| && Terminal(s.ops[i].pc)
    ensures s.ops[i].pc == Stuck <==> Locked(s, i)
  {
    var acts := ActsTo(s);
    CustodyHolds(s.config, acts);
    LockedExactly(s, i);
  }

  lemma OwnerLocks(s: State, e: EscrowId)
    requires Custody(s) && e in s.escrows && s.escrows[e].owner.Some?
    ensures s.escrows[e].owner.value < |s.ops| && Locked(s, s.escrows[e].owner.value)
  {
    assert ItemOk(s, e);
  }

  /** In every reachable state an item in an intermediate status whose owner has ended has
      a stuck owner: nothing else leaves an item locked. */
  lemma EndedOwnerIsStuck(s: State, e: EscrowId)
    requires Reachable(s) && e in s.escrows && s.escrows[e].owner.Some?
    ensures var i := s.escrows[e].owner.value;
            i < |s.ops| && (Terminal(s.ops[i].pc) <==> s.ops[i].pc == Stuck)
  {
    var acts := ActsTo(s);
    CustodyHolds(s.config, acts);
    OwnerLocks(s, e);
    if Terminal(s.ops[s.escrows[e].owner.value].pc) {
      LockedExactly(s, s.escrows[e].owner.value);
    }
  }

  /** A stuck call's item stays in its intermediate status for the rest of the run. */
  lemma StuckForever(states: seq<State>, acts: seq<Action>, p: nat, q: nat, i: nat)
    requires IsRun(states, acts) && p <= q <= |acts| && i < |states[p].ops| && states[p].ops[i].pc == Stuck
    ensures i < |states[q].ops| && states[q].ops[i] == states[p].ops[i] && Locked(states[q], i)
  {
    EndedForever(states, acts, p, q, i);
    StateIsReachable(states, acts, q);
    StuckIsLocked(states[q], i);
  }

  // ------------------------------------------------------------- who is ever stuck

  /** A stuck call is a settle or a partial settle and has committed nothing. */
  predicate StuckClean(op: Op) {
    op.pc == Stuck ==> (op.req.Settle? || op.req.Partial?) && !op.userDone && !op.modelDone
  }

  ghost predicate AllStuckClean(s: State) { forall i :: 0 <= i < |s.ops| ==> StuckClean(s.ops[i]) }

  lemma StuckCleanOp(s: State, i: nat, newId: EscrowId, expirable: nat)
    requires i < |s.ops| && Prepared(s, s.ops[i]) && !Terminal(s.ops[i].pc)
    ensures StuckClean(Advance(s, i, newId, expirable).0)
  {
    SticksLocally(s, i, newId, expirable);
  }

  lemma StuckCleanStep(s: State, a: Action)
    requires Reachable(s) && AllStuckClean(s)
    ensures AllStuckClean(Step(s, a))
  {
    if Enabled(s, a) && a.Run? {
      AllPrepared(s, a.i);
      StuckCleanOp(s, a.i, a.newId, a.expirable);
      RunStep(s, a.i, a.newId, a.expirable);
    }
  }

  lemma {:induction false} StuckCleanHolds(cfg: Config, acts: seq<Action>)
    ensures AllStuckClean(Exec(cfg, acts))
  {
    if acts != [] {
      var n := |acts| - 1;
      StuckCleanHolds(cfg, acts[..n]);
      ExecIsReachable(cfg, acts[..n]);
      StuckCleanStep(Exec(cfg, acts[..n]), acts[n]);
    }
  }

  /** In every reachable state a stuck call is a settle or a partial settle that has
      committed nothing: a refund is never stuck. */
  lemma StuckIsClean(s: State, i: nat)
    requires Reachable(s) && i < |s.ops| && s.ops[i].pc == Stuck
    ensures (s.ops[i].req.Settle? || s.ops[i].req.Partial?) && !s.ops[i].userDone && !s.ops[i].modelDone
  {
    var acts := ActsTo(s);
    StuckCleanHolds(s.config, acts);
    assert StuckClean(s.ops[i]);
  }
}
