/** The life of an escrow item: who inserted it, who holds it, and where it may go. */
module EscrowItems {
  import opened Options
  import opened EscrowProtocol
  import opened EscrowLocal
  import opened EscrowSteps

  // ----------------------------------------------------------------- invariants

  /** An item was inserted by the hold it names; it is in an intermediate status
      exactly while the call it names as owner owns it, and can leave 'held' only
      after its hold has returned. */
  predicate ItemOk(s: State, e: EscrowId)
    requires e in s.escrows
  {
    var item := s.escrows[e];
    && item.maker < |s.ops|
    && var maker := s.ops[item.maker];
    && Makes(maker) && maker.item == Some(e)
    && item.user == maker.user && item.amount == maker.req.amount && item.queueItem == maker.req.queueItem
    && item.amount > 0
    && (item.status != Held ==> maker.pc == Done)
    && (Busy(item.status) <==> item.owner.Some?)
    && (item.owner.Some? ==>
          && item.owner.value < |s.ops|
          && Owns(s.ops[item.owner.value])
          && s.ops[item.owner.value].item == Some(e)
          && item.status == BusyStatus(s.ops[item.owner.value].req))
  }

  /** A release's request agrees with the item it names. */
  predicate Agrees(req: Request, item: Item) {
    match req
    case Settle(_, _, amount, _, _) => amount == item.amount
    case Refund(_, user, amount, _, _) => amount == item.amount && user == item.user
    case Partial(_, user, _, _, _, _, _) => user == item.user
    case _ => true
  }

  predicate CallOk(s: State, i: nat)
    requires i < |s.ops|
  {
    var op := s.ops[i];
    && Placed(s, op)
    && (Makes(op) ==> s.escrows[op.item.value].maker == i)
    && (Owns(op) ==>
          && s.escrows[op.item.value].owner == Some(i)
          && op.user == s.escrows[op.item.value].user
          && (op.pc != Stuck ==> EscrowDelta(op.req) == -s.escrows[op.item.value].amount))
    && (IsRelease(op.req) ==> op.item == Some(op.req.escrowId))
    && (IsRelease(op.req) && op.req.escrowId in s.escrows ==>
          Returned(s, op.req.escrowId) && Agrees(op.req, s.escrows[op.req.escrowId]))
    && (!op.req.Settle? ==> op.user == op.req.user)
  }

  ghost predicate ItemsOk(s: State) { forall e :: e in s.escrows ==> ItemOk(s, e) }

  ghost predicate CallsOk(s: State) { forall i :: 0 <= i < |s.ops| ==> CallOk(s, i) }

  /** At most one item per queue item. */
  ghost predicate QueueUnique(s: State) {
    forall e, d :: e in s.escrows && d in s.escrows && s.escrows[e].queueItem == s.escrows[d].queueItem ==> e == d
  }

  /** A claim is held by at most one call, and every call past its claim holds one. */
  ghost predicate ClaimsOk(s: State) {
    && (forall i :: 0 <= i < |s.ops| && Active(s.ops[i]) ==> ClaimOf(s.ops[i].req) in s.claims)
    && (forall i, j | 0 <= i < |s.ops| && 0 <= j < |s.ops| && Active(s.ops[i]) && Active(s.ops[j])
                      && ClaimOf(s.ops[i].req) == ClaimOf(s.ops[j].req) :: i == j)
  }

  ghost predicate Custody(s: State) {
    AllLocal(s) && ItemsOk(s) && CallsOk(s) && QueueUnique(s) && ClaimsOk(s)
  }

  // --------------------------------------------------------------- preservation

  predicate Ready(s: State, i: nat, op': Op, write: Write) {
    i < |s.ops| && CallOk(s, i) && Local(s.ops[i]) && Shape(s, i, s.ops[i], op', write)
  }

  /** The call is to its item what it was before. */
  predicate KeepsRole(op: Op, op': Op) {
    && op'.req == op.req
    && (Makes(op) ==> Makes(op') && op'.item == op.item && op'.user == op.user && (op.pc == Done ==> op'.pc == Done))
    && (Owns(op) ==> Owns(op') && op'.item == op.item)
  }

  /** A call that neither writes nor drops its item keeps its role. */
  lemma RoleKept(s: State, i: nat, op': Op, write: Write, e: EscrowId)
    requires Ready(s, i, op', write) && s.ops[i].item == Some(e)
    requires write.PutItem? ==> write.id != e
    requires write.DropItem? ==> write.id != e
    ensures KeepsRole(s.ops[i], op')
  {
  }

  /** An item that is not written stays in order. */
  lemma ItemStays(s: State, s': State, i: nat, op': Op, e: EscrowId)
    requires i < |s.ops| && s'.ops == s.ops[i := op'] && e in s.escrows && ItemOk(s, e)
    requires e in s'.escrows && s'.escrows[e] == s.escrows[e]
    requires s.ops[i].item == Some(e) ==> KeepsRole(s.ops[i], op')
    ensures ItemOk(s', e)
  {
  }

  lemma ItemKept(s: State, i: nat, op': Op, write: Write, e: EscrowId)
    requires Ready(s, i, op', write)
    requires e in s.escrows && ItemOk(s, e) && e in Perform(s, i, op', write).escrows
    requires write.PutItem? ==> write.id != e
    ensures ItemOk(Perform(s, i, op', write), e)
  {
    if s.ops[i].item == Some(e) {
      RoleKept(s, i, op', write, e);
    }
    ItemStays(s, Perform(s, i, op', write), i, op', e);
  }

  lemma ItemLocked(s: State, i: nat, op': Op, e: EscrowId, item: Item)
    requires Ready(s, i, op', PutItem(e, item)) && Locks(s, i, s.ops[i], op', e, item)
    requires e in s.escrows && ItemOk(s, e)
    ensures ItemOk(Perform(s, i, op', PutItem(e, item)), e)
  {
  }

  lemma ItemInserted(s: State, i: nat, op': Op, e: EscrowId, item: Item)
    requires Ready(s, i, op', PutItem(e, item)) && Inserts(s, i, s.ops[i], op', e, item)
    ensures ItemOk(Perform(s, i, op', PutItem(e, item)), e)
  {
  }

  lemma ItemGivenUp(s: State, i: nat, op': Op, e: EscrowId, item: Item)
    requires Ready(s, i, op', PutItem(e, item))
    requires Releases(s, s.ops[i], op', e, item) || Finalizes(s, s.ops[i], op', e, item)
    requires e in s.escrows && ItemOk(s, e)
    ensures ItemOk(Perform(s, i, op', PutItem(e, item)), e)
  {
  }

  lemma ItemPut(s: State, i: nat, op': Op, e: EscrowId, item: Item)
    requires Ready(s, i, op', PutItem(e, item))
    requires e in s.escrows ==> ItemOk(s, e)
    ensures ItemOk(Perform(s, i, op', PutItem(e, item)), e)
  {
    if Locks(s, i, s.ops[i], op', e, item) { ItemLocked(s, i, op', e, item); }
    else if Inserts(s, i, s.ops[i], op', e, item) { ItemInserted(s, i, op', e, item); }
    else { ItemGivenUp(s, i, op', e, item); }
  }

  /** The item a call names, when it is in the database, is in order. */
  predicate ItemOfOk(s: State, op: Op) {
    op.item.Some? && op.item.value in s.escrows ==> ItemOk(s, op.item.value)
  }

  /** The call names the same item and user and gains no role. */
  predicate KeepsName(op: Op, op': Op) {
    && op'.req == op.req && op'.item == op.item && op'.user == op.user && op.pc != Stuck
    && (Owns(op') ==> Owns(op)) && (Makes(op') ==> Makes(op))
  }

  lemma NameKept(s: State, i: nat, op': Op, write: Write)
    requires Ready(s, i, op', write) && !write.PutItem? && !write.DropItem?
    ensures KeepsName(s.ops[i], op')
  {
  }

  lemma CallStays(s: State, s': State, i: nat, op': Op)
    requires i < |s.ops| && CallOk(s, i) && ItemOfOk(s, s.ops[i]) && !Terminal(s.ops[i].pc)
    requires s'.ops == s.ops[i := op'] && s'.escrows == s.escrows && KeepsName(s.ops[i], op')
    ensures CallOk(s', i)
  {
  }

  lemma CallSelfDrop(s: State, i: nat, op': Op, e: EscrowId)
    requires Ready(s, i, op', DropItem(e)) && ItemOfOk(s, s.ops[i])
    ensures CallOk(Perform(s, i, op', DropItem(e)), i)
  {
  }

  lemma CallSelfLock(s: State, i: nat, op': Op, e: EscrowId, item: Item)
    requires Ready(s, i, op', PutItem(e, item)) && ItemOfOk(s, s.ops[i]) && Locks(s, i, s.ops[i], op', e, item)
    ensures CallOk(Perform(s, i, op', PutItem(e, item)), i)
  {
  }

  lemma CallSelfInsert(s: State, i: nat, op': Op, e: EscrowId, item: Item)
    requires Ready(s, i, op', PutItem(e, item)) && Inserts(s, i, s.ops[i], op', e, item)
    ensures CallOk(Perform(s, i, op', PutItem(e, item)), i)
  {
  }

  lemma CallSelfGiveUp(s: State, i: nat, op': Op, e: EscrowId, item: Item)
    requires Ready(s, i, op', PutItem(e, item)) && ItemOfOk(s, s.ops[i])
    requires Releases(s, s.ops[i], op', e, item) || Finalizes(s, s.ops[i], op', e, item)
    ensures CallOk(Perform(s, i, op', PutItem(e, item)), i)
  {
  }

  lemma CallSelf(s: State, i: nat, op': Op, write: Write)
    requires Ready(s, i, op', write) && ItemOfOk(s, s.ops[i])
    ensures CallOk(Perform(s, i, op', write), i)
  {
    match write
    case DropItem(e) => CallSelfDrop(s, i, op', e);
    case PutItem(e, item) =>
      if Locks(s, i, s.ops[i], op', e, item) { CallSelfLock(s, i, op', e, item); }
      else if Inserts(s, i, s.ops[i], op', e, item) { CallSelfInsert(s, i, op', e, item); }
      else { CallSelfGiveUp(s, i, op', e, item); }
    case _ =>
      NameKept(s, i, op', write);
      CallStays(s, Perform(s, i, op', write), i, op');
  }

  lemma CallOther(s: State, i: nat, op': Op, write: Write, j: nat)
    requires Ready(s, i, op', write) && !write.PutItem?
    requires j < |s.ops| && j != i && CallOk(s, j) && ItemOfOk(s, s.ops[j])
    ensures CallOk(Perform(s, i, op', write), j)
  {
  }

  lemma CallOtherPut(s: State, i: nat, op': Op, e: EscrowId, item: Item, j: nat)
    requires Ready(s, i, op', PutItem(e, item))
    requires j < |s.ops| && j != i && CallOk(s, j) && ItemOfOk(s, s.ops[j])
    ensures CallOk(Perform(s, i, op', PutItem(e, item)), j)
  {
  }

  lemma QueueStep(s: State, i: nat, op': Op, write: Write)
    requires Ready(s, i, op', write) && QueueUnique(s)
    ensures QueueUnique(Perform(s, i, op', write))
  {
  }

  /** Only a claim makes a call active. */
  lemma ClaimsElsewhere(s: State, i: nat, op': Op, write: Write)
    requires Ready(s, i, op', write) && !write.AddClaim?
    ensures Active(op') == Active(s.ops[i]) && Perform(s, i, op', write).claims == s.claims
  {
  }

  lemma ClaimsKept(s: State, s': State, i: nat, op': Op)
    requires ClaimsOk(s) && i < |s.ops| && s'.ops == s.ops[i := op'] && s'.claims == s.claims
    requires op'.req == s.ops[i].req && Active(op') == Active(s.ops[i])
    ensures ClaimsOk(s')
  {
  }

  lemma ClaimsTaken(s: State, i: nat, op': Op, claim: (Scope, Key))
    requires Ready(s, i, op', AddClaim(claim)) && ClaimsOk(s)
    ensures ClaimsOk(Perform(s, i, op', AddClaim(claim)))
  {
  }

  lemma ClaimsStep(s: State, i: nat, op': Op, write: Write)
    requires Ready(s, i, op', write) && ClaimsOk(s)
    ensures ClaimsOk(Perform(s, i, op', write))
  {
    if write.AddClaim? {
      ClaimsTaken(s, i, op', write.claim);
    } else {
      ClaimsElsewhere(s, i, op', write);
      ClaimsKept(s, Perform(s, i, op', write), i, op');
    }
  }

  lemma ItemsPerform(s: State, i: nat, op': Op, write: Write)
    requires ItemsOk(s) && Ready(s, i, op', write)
    ensures ItemsOk(Perform(s, i, op', write))
  {
    var s' := Perform(s, i, op', write);
    forall e | e in s'.escrows ensures ItemOk(s', e) {
      if write.PutItem? && write.id == e {
        ItemPut(s, i, op', e, write.item);
      } else {
        ItemKept(s, i, op', write, e);
      }
    }
  }

  lemma CallsPerform(s: State, i: nat, op': Op, write: Write)
    requires ItemsOk(s) && CallsOk(s) && Ready(s, i, op', write)
    ensures CallsOk(Perform(s, i, op', write))
  {
    var s' := Perform(s, i, op', write);
    forall j | 0 <= j < |s'.ops| ensures CallOk(s', j) {
      assert ItemOfOk(s, s.ops[j]);
      if j == i { CallSelf(s, i, op', write); }
      else if write.PutItem? { CallOtherPut(s, i, op', write.id, write.item, j); }
      else { CallOther(s, i, op', write, j); }
    }
  }

  lemma CustodyPerform(s: State, i: nat, op': Op, write: Write)
    requires Custody(s) && Ready(s, i, op', write) && Local(op')
    ensures Custody(Perform(s, i, op', write))
  {
    assert Perform(s, i, op', write).ops == s.ops[i := op'];
    ItemsPerform(s, i, op', write);
    CallsPerform(s, i, op', write);
    QueueStep(s, i, op', write);
    ClaimsStep(s, i, op', write);
  }

  lemma CallBegin(s: State, req: Request, j: nat)
    requires Honest(s, req) && j < |s.ops| && CallOk(s, j)
    ensures CallOk(Step(s, Begin(req)), j)
  {
  }

  lemma NewCall(s: State, req: Request)
    requires Honest(s, req)
    ensures CallOk(Step(s, Begin(req)), |s.ops|)
  {
  }

  lemma CustodyBegin(s: State, req: Request)
    requires Custody(s) && Honest(s, req)
    ensures Custody(Step(s, Begin(req)))
  {
    var s' := Step(s, Begin(req));
    assert s'.ops == s.ops + [NewOp(s.config, req)];
    LocalNew(s, req);
    forall e | e in s'.escrows ensures ItemOk(s', e) { assert ItemOk(s, e); }
    forall j | 0 <= j < |s'.ops| ensures CallOk(s', j) {
      if j < |s.ops| { CallBegin(s, req, j); } else { NewCall(s, req); }
    }
  }

  /** The step a running call takes, with everything the invariants need to know. */
  lemma StepReady(s: State, i: nat, newId: EscrowId, expirable: nat)
    requires Custody(s) && Enabled(s, Run(i, newId, expirable))
    ensures var (op', write) := Advance(s, i, newId, expirable);
            Ready(s, i, op', write) && Local(op')
            && Step(s, Run(i, newId, expirable)) == Perform(s, i, op', write)
  {
    assert CallOk(s, i);
    AdvanceShape(s, i, newId, expirable);
    LocalStep(s, i, newId, expirable);
  }

  lemma CustodyStep(s: State, a: Action)
    requires Custody(s)
    ensures Custody(Step(s, a))
  {
    if Enabled(s, a) {
      match a
      case Begin(req) => CustodyBegin(s, req);
      case Run(i, newId, expirable) =>
        StepReady(s, i, newId, expirable);
        var (op', write) := Advance(s, i, newId, expirable);
        CustodyPerform(s, i, op', write);
    }
  }

  lemma {:induction false} CustodyHolds(cfg: Config, acts: seq<Action>)
    ensures Custody(Exec(cfg, acts))
  {
    if acts != [] {
      CustodyHolds(cfg, acts[..|acts| - 1]);
      CustodyStep(Exec(cfg, acts[..|acts| - 1]), acts[|acts| - 1]);
    }
  }
}
