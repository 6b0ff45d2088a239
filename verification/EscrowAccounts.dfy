/** Where every point is, in every reachable state: balances against calls,
    conservation, escrow backing, and the ledger. */
module EscrowAccounts {
  import opened Options
  import opened Sums
  import opened EscrowProtocol
  import opened EscrowLocal
  import opened EscrowSteps
  import opened EscrowItems
  import opened EscrowSerial

  // ------------------------------------------------------------ balances and calls

  function Balance(s: State, a: Account): int {
    match a
    case Available(u) => if u in s.wallets then s.wallets[u].available else 0
    case Escrow(u) => if u in s.wallets then s.wallets[u].escrow else 0
    case Earned(m) => if m in s.models then s.models[m].earned else 0
  }

  /** What a call's committed updates have added to an account. */
  function Applied(op: Op, a: Account): int {
    match a
    case Available(u) => if op.userDone && op.user == u then AvailableDelta(op) else 0
    case Escrow(u) => if op.userDone && op.user == u then EscrowDelta(op.req) else 0
    case Earned(m) => if op.modelDone && HasModel(op.req) && op.req.model == m then EarnedDelta(op.req) else 0
  }

  function AppliedTo(a: Account): Op -> int { (op: Op) => Applied(op, a) }

  /** Every balance is the sum of the committed updates. */
  ghost predicate Booked(s: State) { forall a :: Balance(s, a) == SeqSum(s.ops, AppliedTo(a)) }

  lemma WalletBalanceChange(s: State, i: nat, op': Op, write: Write, a: Account)
    requires CommitReady(s, i, op', write) && write.PutWallet?
    ensures Balance(Perform(s, i, op', write), a) - Balance(s, a) == Applied(op', a) - Applied(s.ops[i], a)
  {
  }

  lemma ModelBalanceChange(s: State, i: nat, op': Op, write: Write, a: Account)
    requires CommitReady(s, i, op', write) && write.PutModel?
    ensures Balance(Perform(s, i, op', write), a) - Balance(s, a) == Applied(op', a) - Applied(s.ops[i], a)
  {
  }

  lemma NoBalanceChange(s: State, i: nat, op': Op, write: Write, a: Account)
    requires CommitReady(s, i, op', write) && !write.PutWallet? && !write.PutModel?
    ensures Balance(Perform(s, i, op', write), a) == Balance(s, a) && Applied(op', a) == Applied(s.ops[i], a)
  {
  }

  lemma BalanceChange(s: State, i: nat, op': Op, write: Write, a: Account)
    requires CommitReady(s, i, op', write)
    ensures Balance(Perform(s, i, op', write), a) - Balance(s, a) == Applied(op', a) - Applied(s.ops[i], a)
  {
    if write.PutWallet? { WalletBalanceChange(s, i, op', write, a); }
    else if write.PutModel? { ModelBalanceChange(s, i, op', write, a); }
    else { NoBalanceChange(s, i, op', write, a); }
  }

  // ----------------------------------------------------------------- conservation

  function WalletPoints(s: State): UserId -> int {
    u => if u in s.wallets then s.wallets[u].available + s.wallets[u].escrow else 0
  }

  function ModelPoints(s: State): ModelId -> int {
    m => if m in s.models then s.models[m].earned else 0
  }

  /** All available, escrow and earned points. */
  ghost function Total(s: State): int {
    SetSum(s.wallets.Keys, WalletPoints(s)) + SetSum(s.models.Keys, ModelPoints(s))
  }

  /** Points a committed award, deduction, expiry or adjustment brought into being. */
  function Issued(): Op -> int {
    (op: Op) => if op.userDone && !IsEscrow(op.req) then AvailableDelta(op) else 0
  }

  /** A settle that credited the model without having debited the user's escrow. */
  predicate CreditedOnly(op: Op) { op.req.Settle? && op.modelDone && !op.userDone }

  /** A partial settle that debited the user without having credited the model. */
  predicate DebitedOnly(op: Op) { op.req.Partial? && op.userDone && !op.modelDone }

  function Floating(): Op -> int {
    (op: Op) => if CreditedOnly(op) then op.req.amount else if DebitedOnly(op) then -op.req.settle else 0
  }

  /** A call's net contribution to the total. */
  function Net(): Op -> int {
    (op: Op) => (if op.userDone then AvailableDelta(op) + EscrowDelta(op.req) else 0)
          + (if op.modelDone then EarnedDelta(op.req) else 0)
  }

  lemma NetSplits(op: Op)
    requires Local(op)
    ensures Net()(op) == Issued()(op) + Floating()(op)
  {
  }

  lemma WalletsChange(s: State, i: nat, op': Op, write: Write)
    requires CommitReady(s, i, op', write)
    ensures var s' := Perform(s, i, op', write);
            SetSum(s'.wallets.Keys, WalletPoints(s')) - SetSum(s.wallets.Keys, WalletPoints(s))
            == (if op'.userDone && !s.ops[i].userDone then AvailableDelta(op') + EscrowDelta(op'.req) else 0)
  {
    var s' := Perform(s, i, op', write);
    if write.PutWallet? {
      var u := write.user;
      if u in s.wallets {
        assert s'.wallets.Keys == s.wallets.Keys;
        SetSumChange(s.wallets.Keys, u, WalletPoints(s), WalletPoints(s'));
      } else {
        assert s'.wallets.Keys == s.wallets.Keys + {u};
        SetSumInsert(s.wallets.Keys, u, WalletPoints(s'));
        SetSumAgree(s.wallets.Keys, WalletPoints(s), WalletPoints(s'));
      }
    } else {
      SetSumAgree(s.wallets.Keys, WalletPoints(s), WalletPoints(s'));
    }
  }

  lemma ModelsChange(s: State, i: nat, op': Op, write: Write)
    requires CommitReady(s, i, op', write)
    ensures var s' := Perform(s, i, op', write);
            SetSum(s'.models.Keys, ModelPoints(s')) - SetSum(s.models.Keys, ModelPoints(s))
            == (if op'.modelDone && !s.ops[i].modelDone then EarnedDelta(op'.req) else 0)
  {
    var s' := Perform(s, i, op', write);
    if write.PutModel? {
      var m := write.model;
      if m in s.models {
        assert s'.models.Keys == s.models.Keys;
        SetSumChange(s.models.Keys, m, ModelPoints(s), ModelPoints(s'));
      } else {
        assert s'.models.Keys == s.models.Keys + {m};
        SetSumInsert(s.models.Keys, m, ModelPoints(s'));
        SetSumAgree(s.models.Keys, ModelPoints(s), ModelPoints(s'));
      }
    } else {
      SetSumAgree(s.models.Keys, ModelPoints(s), ModelPoints(s'));
    }
  }

  lemma TotalChange(s: State, i: nat, op': Op, write: Write)
    requires CommitReady(s, i, op', write)
    ensures Total(Perform(s, i, op', write)) - Total(s) == Net()(op') - Net()(s.ops[i])
  {
    WalletsChange(s, i, op', write);
    ModelsChange(s, i, op', write);
    ShapeKeeps(s, i, s.ops[i], op', write);
  }

  // ---------------------------------------------------------------- escrow backing

  /** The item's funds are in place: its hold has committed, it is not final, and
      the call that owns it, if any, has not yet debited the user. */
  predicate InPlace(s: State, e: EscrowId) {
    && e in s.escrows
    && s.escrows[e].maker < |s.ops| && s.ops[s.escrows[e].maker].userDone
    && !Final(s.escrows[e].status)
    && (s.escrows[e].owner.Some? && s.escrows[e].owner.value < |s.ops| ==> !s.ops[s.escrows[e].owner.value].userDone)
  }

  function Backing(s: State, u: UserId): EscrowId -> int {
    e => if InPlace(s, e) && s.escrows[e].user == u then s.escrows[e].amount else 0
  }

  /** Escrow taken from a user by partial settles that lost the model wallet and
      put their item back. */
  function LostBy(u: UserId): Op -> int {
    (op: Op) => if Lost(op) && op.user == u then op.req.refund + op.req.settle else 0
  }

  ghost predicate Backed(s: State) {
    forall u :: Balance(s, Escrow(u)) + SeqSum(s.ops, LostBy(u)) == SetSum(s.escrows.Keys, Backing(s, u))
  }

  /** A step writes no item but the one its call names. */
  lemma Untouched(s: State, i: nat, op': Op, write: Write, d: EscrowId)
    requires Ready(s, i, op', write) && d in s.escrows && s.ops[i].item != Some(d) && op'.item != Some(d)
    ensures var s' := Perform(s, i, op', write);
            d in s'.escrows && s'.escrows[d] == s.escrows[d] && s'.ops == s.ops[i := op']
  {
  }

  /** The backing of an item depends on the item and on whether its calls have committed. */
  lemma BackingStays(s: State, s': State, i: nat, op': Op, u: UserId, d: EscrowId)
    requires i < |s.ops| && s'.ops == s.ops[i := op'] && d in s.escrows && ItemOk(s, d)
    requires d in s'.escrows && s'.escrows[d] == s.escrows[d]
    requires s.ops[i].item == Some(d) ==> op'.userDone == s.ops[i].userDone
    ensures Backing(s', u)(d) == Backing(s, u)(d)
  {
  }

  /** Items other than the one a call names keep their backing. */
  lemma BackingKept(s: State, i: nat, op': Op, write: Write, u: UserId, d: EscrowId)
    requires CommitReady(s, i, op', write) && d in s.escrows && ItemOk(s, d)
    requires s.ops[i].item != Some(d) && op'.item != Some(d)
    ensures Backing(Perform(s, i, op', write), u)(d) == Backing(s, u)(d)
  {
    Untouched(s, i, op', write, d);
    BackingStays(s, Perform(s, i, op', write), i, op', u, d);
  }

  /** How far the backing of a user's escrow is moved by a call's step. */
  function Moved(op: Op, op': Op, u: UserId): int {
    Applied(op', Escrow(u)) - Applied(op, Escrow(u)) + LostBy(u)(op') - LostBy(u)(op)
  }

  predicate Names(s: State, op: Op, op': Op, e: EscrowId) {
    && e in s.escrows && ItemOk(s, e) && Local(s.ops[s.escrows[e].maker])
    && op.item == Some(e) && op'.item == Some(e)
  }

  lemma CommitBacking(s: State, i: nat, op': Op, write: Write, u: UserId, e: EscrowId)
    requires CommitReady(s, i, op', write) && Names(s, s.ops[i], op', e) && write.PutWallet?
    ensures Backing(Perform(s, i, op', write), u)(e) == Backing(s, u)(e) + Moved(s.ops[i], op', u)
  {
  }

  lemma LockMoves(s: State, i: nat, op': Op, write: Write, u: UserId)
    requires CommitReady(s, i, op', write) && write.PutItem? && Locks(s, i, s.ops[i], op', write.id, write.item)
    ensures Moved(s.ops[i], op', u) == 0 && !op'.userDone
  {
  }

  lemma LockPlace(s: State, i: nat, op': Op, write: Write, e: EscrowId)
    requires CommitReady(s, i, op', write) && Names(s, s.ops[i], op', e) && write.PutItem? && !op'.userDone
    requires Locks(s, i, s.ops[i], op', write.id, write.item)
    ensures var s' := Perform(s, i, op', write);
            && (InPlace(s', e) <==> InPlace(s, e))
            && s'.escrows[e].user == s.escrows[e].user && s'.escrows[e].amount == s.escrows[e].amount
  {
  }

  lemma LockBacking(s: State, i: nat, op': Op, write: Write, u: UserId, e: EscrowId)
    requires CommitReady(s, i, op', write) && Names(s, s.ops[i], op', e) && write.PutItem?
    requires Locks(s, i, s.ops[i], op', write.id, write.item)
    ensures Backing(Perform(s, i, op', write), u)(e) == Backing(s, u)(e)
    ensures Moved(s.ops[i], op', u) == 0
  {
    LockMoves(s, i, op', write, u);
    LockPlace(s, i, op', write, e);
  }

  lemma ReleaseBacking(s: State, i: nat, op': Op, write: Write, u: UserId, e: EscrowId)
    requires CommitReady(s, i, op', write) && Names(s, s.ops[i], op', e) && write.PutItem?
    requires Releases(s, s.ops[i], op', write.id, write.item)
    ensures Backing(Perform(s, i, op', write), u)(e) == Backing(s, u)(e) + Moved(s.ops[i], op', u)
  {
  }

  lemma FinalBacking(s: State, i: nat, op': Op, write: Write, u: UserId, e: EscrowId)
    requires CommitReady(s, i, op', write) && Names(s, s.ops[i], op', e) && write.PutItem?
    requires Finalizes(s, s.ops[i], op', write.id, write.item)
    ensures Backing(Perform(s, i, op', write), u)(e) == Backing(s, u)(e)
    ensures Moved(s.ops[i], op', u) == 0
  {
  }

  /** The other steps change no wallet and no item that stays, and commit nothing for the user. */
  lemma OtherMoves(s: State, i: nat, op': Op, write: Write, u: UserId)
    requires CommitReady(s, i, op', write) && !write.PutItem? && !write.PutWallet?
    ensures Moved(s.ops[i], op', u) == 0 && op'.userDone == s.ops[i].userDone
  {
  }

  /** A call that still names its item has not dropped it. */
  lemma NotDropped(s: State, i: nat, op': Op, write: Write, e: EscrowId)
    requires Ready(s, i, op', write) && Names(s, s.ops[i], op', e) && !write.PutItem? && !write.DropItem?
    ensures var s' := Perform(s, i, op', write);
            e in s'.escrows && s'.escrows[e] == s.escrows[e] && s'.ops == s.ops[i := op']
  {
  }

  lemma OtherBacking(s: State, i: nat, op': Op, write: Write, u: UserId, e: EscrowId)
    requires CommitReady(s, i, op', write) && Names(s, s.ops[i], op', e)
    requires !write.PutItem? && !write.PutWallet? && !write.DropItem?
    ensures Backing(Perform(s, i, op', write), u)(e) == Backing(s, u)(e) + Moved(s.ops[i], op', u)
  {
    OtherMoves(s, i, op', write, u);
    NotDropped(s, i, op', write, e);
    BackingStays(s, Perform(s, i, op', write), i, op', u, e);
  }

  /** The named item's backing moves with the escrow balance and the lost amounts. */
  lemma BackingMoves(s: State, i: nat, op': Op, write: Write, u: UserId, e: EscrowId)
    requires CommitReady(s, i, op', write) && Names(s, s.ops[i], op', e) && !write.DropItem?
    ensures Backing(Perform(s, i, op', write), u)(e) == Backing(s, u)(e) + Moved(s.ops[i], op', u)
  {
    var op := s.ops[i];
    if write.PutWallet? { CommitBacking(s, i, op', write, u, e); }
    else if write.PutItem? {
      assert !Inserts(s, i, op, op', write.id, write.item);
      if Locks(s, i, op, op', write.id, write.item) { LockBacking(s, i, op', write, u, e); }
      else if Releases(s, op, op', write.id, write.item) { ReleaseBacking(s, i, op', write, u, e); }
      else { FinalBacking(s, i, op', write, u, e); }
    } else { OtherBacking(s, i, op', write, u, e); }
  }

  /** A call that names no item changes no backing. */
  lemma NoItemNoBacking(s: State, i: nat, op': Op, write: Write, u: UserId)
    requires CommitReady(s, i, op', write)
    requires write.PutItem? || write.DropItem? || s.ops[i].item.None? || s.ops[i].item.value !in s.escrows
    requires write.PutItem? ==> write.id !in s.escrows
    ensures Applied(op', Escrow(u)) == Applied(s.ops[i], Escrow(u)) && LostBy(u)(op') == LostBy(u)(s.ops[i])
  {
  }

  lemma AllBackingKept(s: State, i: nat, op': Op, write: Write, u: UserId)
    requires ItemsOk(s) && CommitReady(s, i, op', write)
    ensures forall d :: d in s.escrows && s.ops[i].item != Some(d) && op'.item != Some(d) ==>
              Backing(Perform(s, i, op', write), u)(d) == Backing(s, u)(d)
  {
    forall d | d in s.escrows && s.ops[i].item != Some(d) && op'.item != Some(d)
      ensures Backing(Perform(s, i, op', write), u)(d) == Backing(s, u)(d)
    {
      BackingKept(s, i, op', write, u, d);
    }
  }

  lemma InsertKeeps(s: State, i: nat, op': Op, write: Write, d: EscrowId)
    requires Ready(s, i, op', write) && write.PutItem? && write.id !in s.escrows && d in s.escrows
    ensures var s' := Perform(s, i, op', write);
            && d in s'.escrows && s'.escrows[d] == s.escrows[d] && s'.ops == s.ops[i := op']
            && op'.userDone == s.ops[i].userDone && !InPlace(s', write.id)
  {
  }

  lemma InsertBacking(s: State, i: nat, op': Op, write: Write, u: UserId)
    requires ItemsOk(s) && CommitReady(s, i, op', write) && write.PutItem? && write.id !in s.escrows
    ensures var s' := Perform(s, i, op', write);
            SetSum(s'.escrows.Keys, Backing(s', u)) == SetSum(s.escrows.Keys, Backing(s, u))
    ensures Moved(s.ops[i], op', u) == 0
  {
    var s' := Perform(s, i, op', write);
    NoItemNoBacking(s, i, op', write, u);
    forall d | d in s.escrows ensures Backing(s', u)(d) == Backing(s, u)(d) {
      InsertKeeps(s, i, op', write, d);
      BackingStays(s, s', i, op', u, d);
    }
    assert s'.escrows.Keys == s.escrows.Keys + {write.id};
    SetSumInsert(s.escrows.Keys, write.id, Backing(s', u));
    SetSumAgree(s.escrows.Keys, Backing(s, u), Backing(s', u));
  }

  lemma DropBacking(s: State, i: nat, op': Op, write: Write, u: UserId)
    requires ItemsOk(s) && CommitReady(s, i, op', write) && write.DropItem?
    ensures var s' := Perform(s, i, op', write);
            SetSum(s'.escrows.Keys, Backing(s', u)) == SetSum(s.escrows.Keys, Backing(s, u))
    ensures Moved(s.ops[i], op', u) == 0
  {
    var s' := Perform(s, i, op', write);
    NoItemNoBacking(s, i, op', write, u);
    AllBackingKept(s, i, op', write, u);
    assert s'.escrows.Keys == s.escrows.Keys - {write.id};
    assert ItemOk(s, write.id);
    SetSumRemove(s.escrows.Keys, write.id, Backing(s, u));
    SetSumAgree(s'.escrows.Keys, Backing(s, u), Backing(s', u));
  }

  lemma SameItem(s: State, i: nat, op': Op, write: Write)
    requires CommitReady(s, i, op', write)
    requires !write.DropItem? && (write.PutItem? ==> write.id in s.escrows)
    ensures op'.item == s.ops[i].item
  {
  }

  lemma SameKeys(s: State, i: nat, op': Op, write: Write)
    requires i < |s.ops| && !write.DropItem? && (write.PutItem? ==> write.id in s.escrows)
    ensures Perform(s, i, op', write).escrows.Keys == s.escrows.Keys
  {
  }

  /** A call puts no item but the one it names. */
  lemma PutsNamed(s: State, i: nat, op': Op, write: Write)
    requires Ready(s, i, op', write) && write.PutItem? && write.id in s.escrows
    ensures s.ops[i].item == Some(write.id)
  {
  }

  lemma SameBacking(s: State, i: nat, op': Op, write: Write, u: UserId)
    requires ItemsOk(s) && CommitReady(s, i, op', write)
    requires s.ops[i].item.Some? && Names(s, s.ops[i], s.ops[i], s.ops[i].item.value)
    requires !write.DropItem? && (write.PutItem? ==> write.id in s.escrows)
    ensures var s' := Perform(s, i, op', write);
            SetSum(s'.escrows.Keys, Backing(s', u)) == SetSum(s.escrows.Keys, Backing(s, u)) + Moved(s.ops[i], op', u)
  {
    var s', op := Perform(s, i, op', write), s.ops[i];
    AllBackingKept(s, i, op', write, u);
    SameKeys(s, i, op', write);
    SameItem(s, i, op', write);
    var e := op.item.value;
    BackingMoves(s, i, op', write, u, e);
    SetSumChange(s.escrows.Keys, e, Backing(s, u), Backing(s', u));
  }

  lemma NoBacking(s: State, i: nat, op': Op, write: Write, u: UserId)
    requires ItemsOk(s) && CommitReady(s, i, op', write) && !write.DropItem? && !write.PutItem?
    requires s.ops[i].item.None? || s.ops[i].item.value !in s.escrows
    ensures var s' := Perform(s, i, op', write);
            SetSum(s'.escrows.Keys, Backing(s', u)) == SetSum(s.escrows.Keys, Backing(s, u))
    ensures Moved(s.ops[i], op', u) == 0
  {
    AllBackingKept(s, i, op', write, u);
    SameItem(s, i, op', write);
    NoItemNoBacking(s, i, op', write, u);
    SetSumAgree(s.escrows.Keys, Backing(s, u), Backing(Perform(s, i, op', write), u));
  }

  lemma BackingChange(s: State, i: nat, op': Op, write: Write, u: UserId)
    requires Custody(s) && CommitReady(s, i, op', write)
    ensures var s' := Perform(s, i, op', write);
            SetSum(s'.escrows.Keys, Backing(s', u)) == SetSum(s.escrows.Keys, Backing(s, u)) + Moved(s.ops[i], op', u)
  {
    if write.PutItem? && write.id !in s.escrows {
      InsertBacking(s, i, op', write, u);
    } else if write.DropItem? {
      DropBacking(s, i, op', write, u);
    } else if s.ops[i].item.Some? && s.ops[i].item.value in s.escrows {
      assert ItemOk(s, s.ops[i].item.value);
      SameBacking(s, i, op', write, u);
    } else {
      if write.PutItem? { PutsNamed(s, i, op', write); }
      NoBacking(s, i, op', write, u);
    }
  }

  // ------------------------------------------------------------------------ ledger

  function EntryTo(a: Account): Entry -> int { (e: Entry) => if e.account == a then e.amount else 0 }

  /** The sum of an account's ledger amounts. */
  ghost function LedgerSum(s: State, a: Account): int { SeqSum(s.ledger, EntryTo(a)) }

  /** What a call has put in the ledger for an account. */
  function WrittenTo(a: Account): Op -> int {
    (op: Op) =>
      (if op.first == Written && FirstAccount(op) == a then FirstAmount(op) else 0)
      + (if op.second == Written && SecondAccount(op) == a then SecondAmount(op.req) else 0)
  }

  ghost predicate LedgerBooked(s: State) { forall a :: LedgerSum(s, a) == SeqSum(s.ops, WrittenTo(a)) }

  lemma EntryChange(s: State, i: nat, op': Op, write: Write, a: Account)
    requires Ready(s, i, op', write) && write.AddEntry?
    ensures EntryTo(a)(write.entry) == WrittenTo(a)(op') - WrittenTo(a)(s.ops[i])
  {
  }

  lemma NoEntryChange(s: State, i: nat, op': Op, write: Write, a: Account)
    requires Ready(s, i, op', write) && !write.AddEntry?
    ensures WrittenTo(a)(op') == WrittenTo(a)(s.ops[i])
  {
  }

  lemma LedgerChange(s: State, i: nat, op': Op, write: Write, a: Account)
    requires Ready(s, i, op', write)
    ensures LedgerSum(Perform(s, i, op', write), a) - LedgerSum(s, a) == WrittenTo(a)(op') - WrittenTo(a)(s.ops[i])
  {
    if write.AddEntry? {
      EntryChange(s, i, op', write, a);
      SeqSumAppend(s.ledger, write.entry, EntryTo(a));
    } else {
      NoEntryChange(s, i, op', write, a);
    }
  }

  /** The fate of the entry that records a call's change to an account. */
  function FateFor(op: Op, a: Account): Fate {
    if a.Earned? && op.req.Partial? then op.second else if a.Escrow? then op.second else op.first
  }

  /** A committed change the ledger does not show: its entry is not written yet, or
      was taken for a duplicate. No release ever writes an entry for the escrow balance. */
  function MissingFrom(a: Account): Op -> int {
    (op: Op) => if FateFor(op, a) == Written && !(a.Escrow? && IsRelease(op.req)) then 0 else Applied(op, a)
  }

  lemma AppliedSplits(op: Op, a: Account)
    requires Local(op)
    ensures AppliedTo(a)(op) == WrittenTo(a)(op) + MissingFrom(a)(op)
  {
  }

  // --------------------------------------------------------------------- ledger keys

  function KeysOf(req: Request): set<Key> {
    {FirstKey(req)} + if HasSecond(req) then {SecondKey(req)} else {}
  }

  /** The call has committed and the ledger accepts its entries. */
  predicate Recordable(op: Op) { op.userDone && !Refuses(op.req) }

  /** Two calls that write entries and whose idempotency keys no claim keeps apart: of
      different operations, or direct writers. */
  predicate Unguarded(a: Op, b: Op) {
    Recordable(a) && Recordable(b) && !(IsEscrow(a.req) && ScopeOf(a.req) == ScopeOf(b.req))
  }

  /** Committed calls of different operations derive different ledger keys. Calls that
      never commit or whose entries are refused, and calls of one escrow operation, may
      repeat a key. */
  ghost predicate DistinctKeys(ops: seq<Op>) {
    forall i, j :: 0 <= i < j < |ops| && Unguarded(ops[i], ops[j]) ==> KeysOf(ops[i].req) !! KeysOf(ops[j].req)
  }

  /** Appending one suffix keeps different keys different. */
  lemma SuffixKeeps(a: Key, b: Key, suffix: string)
    requires a != b
    ensures a + suffix != b + suffix
  {
    if |a| == |b| {
      assert (a + suffix)[..|a|] == a && (b + suffix)[..|b|] == b;
    }
  }

  /** Two requests of one escrow operation with different idempotency keys share no
      ledger key. */
  lemma SameScopeKeys(a: Request, b: Request)
    requires IsEscrow(a) && ScopeOf(a) == ScopeOf(b) && a.key != b.key
    ensures KeysOf(a) !! KeysOf(b)
  {
    SuffixKeeps(a.key, b.key, "");
    if a.Hold? {
      SuffixKeeps(a.key, b.key, "_debit");
      SuffixKeeps(a.key, b.key, "_credit");
      DebitIsNotCredit(a.key, b.key);
      DebitIsNotCredit(b.key, a.key);
    } else if a.Partial? {
      SuffixKeeps(a.key, b.key, "_refund");
      SuffixKeeps(a.key, b.key, "_settle");
      RefundIsNotSettle(a.key, b.key);
      RefundIsNotSettle(b.key, a.key);
    }
  }

  lemma DebitIsNotCredit(a: Key, b: Key)
    ensures a + "_debit" != b + "_credit"
  {
    var x, y := a + "_debit", b + "_credit";
    assert x[|x| - 5] == 'd' && y[|y| - 5] == 'r';
  }

  lemma RefundIsNotSettle(a: Key, b: Key)
    ensures a + "_refund" != b + "_settle"
  {
    var x, y := a + "_refund", b + "_settle";
    assert x[|x| - 1] == 'd' && y[|y| - 1] == 'e';
  }

  predicate MadeBy(op: Op, key: Key) {
    || (op.first == Written && FirstKey(op.req) == key)
    || (op.second == Written && HasSecond(op.req) && SecondKey(op.req) == key)
  }

  ghost predicate Made(ops: seq<Op>, entry: Entry) { exists i :: 0 <= i < |ops| && MadeBy(ops[i], entry.key) }

  /** Every entry was written by some call under one of the call's own keys. */
  ghost predicate EntriesMade(s: State) { forall k :: 0 <= k < |s.ledger| ==> Made(s.ops, s.ledger[k]) }

  ghost predicate NoDuplicates(s: State) {
    forall i :: 0 <= i < |s.ops| ==> s.ops[i].first != Duplicate && s.ops[i].second != Duplicate
  }

  /** A call's own two keys differ. */
  lemma OwnKeysDiffer(req: Request)
    requires HasSecond(req)
    ensures FirstKey(req) != SecondKey(req)
  {
    var n := |req.key|;
    if req.Partial? {
      assert FirstKey(req)[n + 1] == 'r' && SecondKey(req)[n + 1] == 's';
    } else {
      assert |FirstKey(req)| == n + 6 && |SecondKey(req)| == n + 7;
    }
  }

  lemma MadeKept(s: State, i: nat, op': Op, write: Write, key: Key)
    requires Ready(s, i, op', write) && MadeBy(s.ops[i], key)
    ensures MadeBy(op', key)
  {
  }

  lemma EntriesMadeStep(s: State, i: nat, op': Op, write: Write)
    requires Ready(s, i, op', write) && EntriesMade(s)
    ensures EntriesMade(Perform(s, i, op', write))
  {
    var s' := Perform(s, i, op', write);
    assert s'.ops == s.ops[i := op'];
    forall k | 0 <= k < |s'.ledger| ensures Made(s'.ops, s'.ledger[k]) {
      if k < |s.ledger| {
        assert Made(s.ops, s.ledger[k]);
        var j :| 0 <= j < |s.ops| && MadeBy(s.ops[j], s.ledger[k].key);
        if j == i { MadeKept(s, i, op', write, s.ledger[k].key); }
        assert MadeBy(s'.ops[j], s'.ledger[k].key);
      } else {
        assert MadeBy(s'.ops[i], s'.ledger[k].key);
      }
    }
  }

  /** The call is about to write an entry under the key. */
  predicate Writing(op: Op, key: Key) {
    !Refuses(op.req)
    && ((op.pc == WriteFirst && key == FirstKey(op.req)) || (op.pc == WriteSecond && key == SecondKey(op.req)))
  }

  lemma WritingKey(op: Op, key: Key)
    requires Local(op) && Writing(op, key)
    ensures key in KeysOf(op.req) && !MadeBy(op, key) && Recordable(op)
  {
    if op.pc == WriteSecond {
      OwnKeysDiffer(op.req);
    }
  }

  lemma MadeKey(op: Op, key: Key)
    requires Local(op) && MadeBy(op, key)
    ensures key in KeysOf(op.req) && Recordable(op)
  {
  }

  /** Two different calls that write entries share no ledger key: by their claims when they are of
      one escrow operation, by assumption otherwise. */
  lemma KeysApart(s: State, i: nat, j: nat)
    requires i < |s.ops| && j < |s.ops| && i != j && ClaimsOk(s) && DistinctKeys(s.ops)
    requires Local(s.ops[i]) && Local(s.ops[j]) && Recordable(s.ops[i]) && Recordable(s.ops[j])
    ensures KeysOf(s.ops[i].req) !! KeysOf(s.ops[j].req)
  {
    if IsEscrow(s.ops[i].req) && ScopeOf(s.ops[i].req) == ScopeOf(s.ops[j].req) {
      assert Active(s.ops[i]) && Active(s.ops[j]);
      SameScopeKeys(s.ops[i].req, s.ops[j].req);
    } else if i < j {
      assert Unguarded(s.ops[i], s.ops[j]);
    } else {
      assert Unguarded(s.ops[j], s.ops[i]);
    }
  }

  /** With distinct keys, a call about to write never finds its key taken. */
  lemma KeyIsFree(s: State, i: nat, key: Key)
    requires i < |s.ops| && AllLocal(s) && ClaimsOk(s) && EntriesMade(s) && DistinctKeys(s.ops) && Writing(s.ops[i], key)
    ensures !KeyUsed(s.ledger, key)
  {
    WritingKey(s.ops[i], key);
    forall k | 0 <= k < |s.ledger| ensures s.ledger[k].key != key {
      assert Made(s.ops, s.ledger[k]);
      var j :| 0 <= j < |s.ops| && MadeBy(s.ops[j], s.ledger[k].key);
      MadeKey(s.ops[j], s.ledger[k].key);
      if j != i {
        KeysApart(s, i, j);
      }
    }
  }

  /** What keys are distinct now were distinct before: calls keep their requests and stay
      committed. */
  lemma DistinctBefore(s: State, i: nat, op': Op, write: Write)
    requires Ready(s, i, op', write) && DistinctKeys(s.ops[i := op'])
    ensures DistinctKeys(s.ops)
  {
    ShapeKeeps(s, i, s.ops[i], op', write);
    var ops := s.ops[i := op'];
    forall j, l | 0 <= j < l < |s.ops| && Unguarded(s.ops[j], s.ops[l])
      ensures KeysOf(s.ops[j].req) !! KeysOf(s.ops[l].req)
    {
      assert Unguarded(ops[j], ops[l]);
    }
  }

  /** A step that does not find its key taken writes no duplicate. */
  lemma StepIsNoDuplicate(s: State, i: nat, op': Op, write: Write)
    requires Ready(s, i, op', write) && s.ops[i].first != Duplicate && s.ops[i].second != Duplicate
    requires !Refuses(s.ops[i].req) && s.ops[i].pc == WriteFirst ==> !KeyUsed(s.ledger, FirstKey(s.ops[i].req))
    requires !Refuses(s.ops[i].req) && s.ops[i].pc == WriteSecond ==> !KeyUsed(s.ledger, SecondKey(s.ops[i].req))
    ensures op'.first != Duplicate && op'.second != Duplicate
  {
  }

  lemma NoDuplicatesStep(s: State, i: nat, op': Op, write: Write)
    requires Ready(s, i, op', write) && AllLocal(s) && ClaimsOk(s) && EntriesMade(s)
    requires DistinctKeys(s.ops) ==> NoDuplicates(s)
    ensures var s' := Perform(s, i, op', write); DistinctKeys(s'.ops) ==> NoDuplicates(s')
  {
    var s' := Perform(s, i, op', write);
    assert s'.ops == s.ops[i := op'];
    if DistinctKeys(s'.ops) {
      DistinctBefore(s, i, op', write);
      if !Refuses(s.ops[i].req) {
        if s.ops[i].pc == WriteFirst { KeyIsFree(s, i, FirstKey(s.ops[i].req)); }
        if s.ops[i].pc == WriteSecond { KeyIsFree(s, i, SecondKey(s.ops[i].req)); }
      }
      StepIsNoDuplicate(s, i, op', write);
    }
  }

  // --------------------------------------------------------------------- every run

  ghost predicate Accounted(s: State) {
    && Ordered(s) && Booked(s) && Backed(s) && LedgerBooked(s)
    && Total(s) == SeqSum(s.ops, Net())
    && EntriesMade(s) && (DistinctKeys(s.ops) ==> NoDuplicates(s))
  }

  lemma BookedPerform(s: State, i: nat, op': Op, write: Write)
    requires Booked(s) && CommitReady(s, i, op', write)
    ensures Booked(Perform(s, i, op', write))
  {
    var s' := Perform(s, i, op', write);
    assert s'.ops == s.ops[i := op'];
    forall a ensures Balance(s', a) == SeqSum(s'.ops, AppliedTo(a)) {
      BalanceChange(s, i, op', write, a);
      SeqSumUpdate(s.ops, i, op', AppliedTo(a));
    }
  }

  lemma LedgerPerform(s: State, i: nat, op': Op, write: Write)
    requires LedgerBooked(s) && Ready(s, i, op', write)
    ensures LedgerBooked(Perform(s, i, op', write))
  {
    var s' := Perform(s, i, op', write);
    assert s'.ops == s.ops[i := op'];
    forall a ensures LedgerSum(s', a) == SeqSum(s'.ops, WrittenTo(a)) {
      LedgerChange(s, i, op', write, a);
      SeqSumUpdate(s.ops, i, op', WrittenTo(a));
    }
  }

  lemma BackedPerform(s: State, i: nat, op': Op, write: Write)
    requires Backed(s) && Custody(s) && CommitReady(s, i, op', write)
    ensures Backed(Perform(s, i, op', write))
  {
    var s' := Perform(s, i, op', write);
    assert s'.ops == s.ops[i := op'];
    forall u ensures Balance(s', Escrow(u)) + SeqSum(s'.ops, LostBy(u)) == SetSum(s'.escrows.Keys, Backing(s', u)) {
      BalanceChange(s, i, op', write, Escrow(u));
      BackingChange(s, i, op', write, u);
      SeqSumUpdate(s.ops, i, op', LostBy(u));
    }
  }

  lemma SumsBegin(s: State, req: Request)
    requires Booked(s) && LedgerBooked(s) && Honest(s, req)
    ensures Booked(Step(s, Begin(req))) && LedgerBooked(Step(s, Begin(req)))
  {
    var s', op := Step(s, Begin(req)), NewOp(s.config, req);
    assert s'.ops == s.ops + [op];
    forall a ensures Balance(s', a) == SeqSum(s'.ops, AppliedTo(a)) {
      SeqSumAppend(s.ops, op, AppliedTo(a));
      assert Balance(s', a) == Balance(s, a);
    }
    forall a ensures LedgerSum(s', a) == SeqSum(s'.ops, WrittenTo(a)) {
      SeqSumAppend(s.ops, op, WrittenTo(a));
      assert LedgerSum(s', a) == LedgerSum(s, a);
    }
  }

  lemma AccountedBegin(s: State, req: Request)
    requires Accounted(s) && Honest(s, req)
    ensures Accounted(Step(s, Begin(req)))
  {
    var s', op := Step(s, Begin(req)), NewOp(s.config, req);
    OrderedBegin(s, req);
    SumsBegin(s, req);
    BackedBegin(s, req);
    SeqSumAppend(s.ops, op, Net());
    SetSumAgree(s.wallets.Keys, WalletPoints(s), WalletPoints(s'));
    SetSumAgree(s.models.Keys, ModelPoints(s), ModelPoints(s'));
    KeysBegin(s, req);
  }

  lemma BackedBegin(s: State, req: Request)
    requires Backed(s) && ItemsOk(s) && Honest(s, req)
    ensures Backed(Step(s, Begin(req)))
  {
    var s', op := Step(s, Begin(req)), NewOp(s.config, req);
    assert s'.ops == s.ops + [op];
    forall u ensures Balance(s', Escrow(u)) + SeqSum(s'.ops, LostBy(u)) == SetSum(s'.escrows.Keys, Backing(s', u)) {
      SeqSumAppend(s.ops, op, LostBy(u));
      assert Balance(s', Escrow(u)) == Balance(s, Escrow(u));
      forall e | e in s.escrows ensures Backing(s', u)(e) == Backing(s, u)(e) { assert ItemOk(s, e); }
      SetSumAgree(s.escrows.Keys, Backing(s, u), Backing(s', u));
    }
  }

  lemma KeysBegin(s: State, req: Request)
    requires EntriesMade(s) && Honest(s, req)
    requires DistinctKeys(s.ops) ==> NoDuplicates(s)
    ensures var s' := Step(s, Begin(req)); EntriesMade(s') && (DistinctKeys(s'.ops) ==> NoDuplicates(s'))
  {
    var s' := Step(s, Begin(req));
    assert s'.ops == s.ops + [NewOp(s.config, req)];
    forall k | 0 <= k < |s'.ledger| ensures Made(s'.ops, s'.ledger[k]) {
      assert Made(s.ops, s.ledger[k]);
      var j :| 0 <= j < |s.ops| && MadeBy(s.ops[j], s.ledger[k].key);
      assert MadeBy(s'.ops[j], s'.ledger[k].key);
    }
    if DistinctKeys(s'.ops) {
      forall j, l | 0 <= j < l < |s.ops| && Unguarded(s.ops[j], s.ops[l])
        ensures KeysOf(s.ops[j].req) !! KeysOf(s.ops[l].req)
      {
        assert Unguarded(s'.ops[j], s'.ops[l]);
      }
    }
  }

  lemma TotalPerform(s: State, i: nat, op': Op, write: Write)
    requires CommitReady(s, i, op', write) && Total(s) == SeqSum(s.ops, Net())
    ensures var s' := Perform(s, i, op', write); Total(s') == SeqSum(s'.ops, Net())
  {
    assert Perform(s, i, op', write).ops == s.ops[i := op'];
    TotalChange(s, i, op', write);
    SeqSumUpdate(s.ops, i, op', Net());
  }

  lemma AccountedPerform(s: State, i: nat, op': Op, write: Write)
    requires Accounted(s) && CommitReady(s, i, op', write) && Ordered(Perform(s, i, op', write))
    ensures Accounted(Perform(s, i, op', write))
  {
    BookedPerform(s, i, op', write);
    LedgerPerform(s, i, op', write);
    TotalPerform(s, i, op', write);
    BackedPerform(s, i, op', write);
    EntriesMadeStep(s, i, op', write);
    NoDuplicatesStep(s, i, op', write);
  }

  lemma AccountedStep(s: State, a: Action)
    requires Accounted(s)
    ensures Accounted(Step(s, a))
  {
    if Enabled(s, a) {
      match a
      case Begin(req) => AccountedBegin(s, req);
      case Run(i, newId, expirable) =>
        StepReady(s, i, newId, expirable);
        var (op', write) := Advance(s, i, newId, expirable);
        assert ReadOk(s, s.ops[i]);
        OrderedStep(s, a);
        AccountedPerform(s, i, op', write);
    }
  }

  lemma AccountedInit(cfg: Config)
    ensures Accounted(Init(cfg))
  {
    OrderedHolds(cfg, []);
  }

  lemma {:induction false} AccountedHolds(cfg: Config, acts: seq<Action>)
    ensures Accounted(Exec(cfg, acts))
  {
    if acts == [] {
      AccountedInit(cfg);
    } else {
      AccountedHolds(cfg, acts[..|acts| - 1]);
      AccountedStep(Exec(cfg, acts[..|acts| - 1]), acts[|acts| - 1]);
    }
  }
}
