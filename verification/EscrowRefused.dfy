/** Calls that throw after they have committed. The ledger checks an entry's metadata after
    the wallets are updated, so a call whose entries it refuses never returns, and what it
    did stays: its balances, its item, and no entry. */
module EscrowRefused {
  import opened Options
  import opened EscrowProtocol
  import opened EscrowLocal
  import opened EscrowItems
  import opened EscrowAccounts
  import opened EscrowTheorems
  import opened EscrowStuck

  // ------------------------------------------------------- throwing after the commit

  /** Every update of the call is committed. */
  predicate Whole(op: Op) { op.userDone && (HasModel(op.req) ==> op.modelDone) }

  /** A committed call has an entry to write. */
  lemma HasEntry(op: Op)
    requires Local(op) && TookSomething(op) && op.userDone
    ensures FirstAmount(op) != 0 || (HasSecond(op.req) && SecondAmount(op.req) != 0)
  {
  }

  lemma EndsLocally(op: Op)
    requires Local(op) && TookSomething(op) && Terminal(op.pc)
    ensures op.pc == EntryRefused <==> Whole(op) && Refuses(op.req)
    ensures Threw(op.pc) && (op.userDone || op.modelDone) <==>
              CreditedOnly(op) || DebitedOnly(op) || (Whole(op) && Refuses(op.req))
    ensures !op.req.Expire? ==> (op.pc == Done <==> Whole(op) && !Refuses(op.req))
  {
    if op.userDone {
      HasEntry(op);
    }
  }

  /** In every reachable state a call that has ended threw with an update in place if and
      only if it is a settle that credited the model alone, a partial settle that debited the
      user alone, or a call that committed everything and whose entries the ledger refuses.
      It returned if and only if it committed everything and the ledger accepts its entries;
      an expiry also returns when nothing has expired. */
  lemma ThrowsCommitted(s: State, i: nat)
    requires Reachable(s) && i < |s.ops| && Terminal(s.ops[i].pc)
    ensures var op := s.ops[i];
            && (Threw(op.pc) && (op.userDone || op.modelDone) <==>
                  CreditedOnly(op) || DebitedOnly(op) || (Whole(op) && Refuses(op.req)))
            && (op.pc == EntryRefused <==> Whole(op) && Refuses(op.req))
            && (!op.req.Expire? ==> (op.pc == Done <==> Whole(op) && !Refuses(op.req)))
  {
    Invariants(s);
    assert Local(s.ops[i]) && TookSomething(s.ops[i]);
    EndsLocally(s.ops[i]);
  }

  // ------------------------------------------------------------ the items of releases

  /** The program counters of a release after its last status write. */
  predicate Past(op: Op) {
    IsRelease(op.req) && (op.pc == WriteFirst || op.pc == WriteSecond || op.pc == Done || op.pc == EntryRefused)
  }

  /** A release past its last status write has left its item in its final status. */
  predicate Finalized(s: State, op: Op) {
    Past(op) ==>
      op.item.Some? && op.item.value in s.escrows && s.escrows[op.item.value].status == FinalStatus(op.req)
  }

  ghost predicate AllFinalized(s: State) { forall i :: 0 <= i < |s.ops| ==> Finalized(s, s.ops[i]) }

  /** A release gets past its last status write by that write alone. */
  lemma PastBefore(s: State, i: nat, op': Op, write: Write)
    requires Ready(s, i, op', write) && Local(op') && Past(op') && !write.PutItem?
    ensures Past(s.ops[i]) && op'.item == s.ops[i].item && !write.DropItem?
  {
  }

  lemma PastByWrite(s: State, i: nat, op': Op, write: Write)
    requires Ready(s, i, op', write) && Past(op') && write.PutItem?
    ensures op'.item == Some(write.id) && write.item.status == FinalStatus(op'.req)
  {
  }

  lemma FinalizedSelf(s: State, i: nat, op': Op, write: Write)
    requires Ready(s, i, op', write) && Local(op') && Finalized(s, s.ops[i])
    ensures Finalized(Perform(s, i, op', write), op')
  {
    if Past(op') {
      if write.PutItem? { PastByWrite(s, i, op', write); } else { PastBefore(s, i, op', write); }
    }
  }

  lemma FinalizedOther(s: State, a: Action, op: Op)
    requires Reachable(s) && Finalized(s, op)
    ensures Finalized(Step(s, a), op)
  {
    if op.item.Some? && op.item.value in s.escrows {
      StatusMoves(s, a, op.item.value);
    }
  }

  lemma FinalizedRun(s: State, i: nat, newId: EscrowId, expirable: nat)
    requires Custody(s) && AllFinalized(s) && Enabled(s, Run(i, newId, expirable))
    ensures Finalized(Step(s, Run(i, newId, expirable)), Advance(s, i, newId, expirable).0)
  {
    StepReady(s, i, newId, expirable);
    var (op', write) := Advance(s, i, newId, expirable);
    FinalizedSelf(s, i, op', write);
  }

  lemma FinalizedStep(s: State, a: Action)
    requires Reachable(s) && AllFinalized(s)
    ensures AllFinalized(Step(s, a))
  {
    Invariants(s);
    var s' := Step(s, a);
    forall j | 0 <= j < |s'.ops| ensures Finalized(s', s'.ops[j]) {
      if a.Run? && Enabled(s, a) {
        RunStep(s, a.i, a.newId, a.expirable);
        if j == a.i { FinalizedRun(s, j, a.newId, a.expirable); } else { FinalizedOther(s, a, s.ops[j]); }
      } else if j < |s.ops| {
        FinalizedOther(s, a, s.ops[j]);
      }
    }
  }

  lemma {:induction false} FinalizedHolds(cfg: Config, acts: seq<Action>)
    ensures AllFinalized(Exec(cfg, acts))
  {
    if acts != [] {
      var n := |acts| - 1;
      FinalizedHolds(cfg, acts[..n]);
      ExecIsReachable(cfg, acts[..n]);
      FinalizedStep(Exec(cfg, acts[..n]), acts[n]);
    }
  }

  // ------------------------------------------------------- what a refused call leaves

  /** The call's item: final when the call is a release, still held when it is a hold. */
  predicate LeavesItem(s: State, i: nat)
    requires i < |s.ops|
  {
    var op := s.ops[i];
    IsEscrow(op.req) ==>
      && op.item.Some? && op.item.value in s.escrows
      && var item := s.escrows[op.item.value];
         if op.req.Hold? then item == Item(op.user, op.req.amount, op.req.queueItem, Held, i, None)
         else item.status == FinalStatus(op.req)
  }

  lemma RefusedItem(s: State, i: nat)
    requires Custody(s) && AllFinalized(s) && i < |s.ops| && s.ops[i].pc == EntryRefused
    ensures LeavesItem(s, i)
  {
    assert CallOk(s, i) && Finalized(s, s.ops[i]);
    if s.ops[i].req.Hold? {
      assert ItemOk(s, s.ops[i].item.value);
    }
  }

  /** The call has changed the balances it was to change and written no entry. */
  ghost predicate Unrecorded(op: Op) { Whole(op) && forall a :: WrittenTo(a)(op) == 0 }

  /** In every reachable state a call whose entry was refused has committed every update,
      shows in no ledger entry, and has left its item settled, refunded or, for a hold,
      held. */
  lemma RefusedLeaves(s: State, i: nat)
    requires Reachable(s) && i < |s.ops| && s.ops[i].pc == EntryRefused
    ensures Unrecorded(s.ops[i]) && LeavesItem(s, i)
  {
    var acts := ActsTo(s);
    CustodyHolds(s.config, acts);
    FinalizedHolds(s.config, acts);
    RefusedItem(s, i);
    RefusedWrites(s.ops[i]);
  }

  lemma RefusedWrites(op: Op)
    requires Local(op) && op.pc == EntryRefused
    ensures Unrecorded(op)
  {
  }

  /** It stays so for the rest of the run: no later action writes the entry, and nobody
      releases the item of a refused hold, whose id was returned to nobody. Its amount
      backs the user's escrow for ever. */
  lemma RefusedForever(states: seq<State>, acts: seq<Action>, p: nat, q: nat, i: nat)
    requires IsRun(states, acts) && p <= q <= |acts| && i < |states[p].ops| && states[p].ops[i].pc == EntryRefused
    ensures i < |states[q].ops| && states[q].ops[i] == states[p].ops[i]
    ensures Unrecorded(states[q].ops[i]) && LeavesItem(states[q], i)
    ensures var op := states[p].ops[i];
            op.req.Hold? ==> Backing(states[q], op.user)(op.item.value) == op.req.amount
  {
    EndedForever(states, acts, p, q, i);
    StateIsReachable(states, acts, q);
    RefusedLeaves(states[q], i);
  }
}
