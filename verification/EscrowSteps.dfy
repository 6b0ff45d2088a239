/** The eleven shapes an atomic step can take, read off from the one document it
    writes. The invariants are proved against these shapes. */
module EscrowSteps {
  import opened Options
  import opened EscrowProtocol
  import opened EscrowLocal

  /** The call has moved its escrow item into its intermediate status and has not
      moved it on: it may be running, halted or stuck. */
  predicate Owns(op: Op) {
    IsRelease(op.req) &&
    match op.pc
    case Claim | LockItem | WriteFirst | WriteSecond | Done | Rejected | Failed | EntryRefused => false
    case _ => true
  }

  /** The hold's escrow item is in the database. */
  predicate Makes(op: Op) {
    op.req.Hold? &&
    match op.pc
    case CasUser | DeleteItem | WriteFirst | WriteSecond | Done | EntryRefused => true
    case _ => false
  }

  /** The call won its idempotency claim. */
  predicate Active(op: Op) { IsEscrow(op.req) && op.pc != Claim && op.pc != Rejected }

  /** A partial settle that debited its user, lost the model wallet, and put its item
      back to 'held' without giving the user's escrow back. */
  predicate Lost(op: Op) { op.req.Partial? && op.userDone && !op.modelDone && op.pc == Failed }

  /** The call still relies on the user wallet it read. */
  predicate UsesUser(op: Op) {
    op.pc == CasUser || op.pc == InsertItem || (op.req.Partial? && (op.pc == ReadModel || op.pc == CreateModel))
  }

  /** The call still relies on the model wallet it read. */
  predicate UsesModel(op: Op) {
    HasModel(op.req) && (op.pc == CasModel || (op.req.Partial? && op.pc == CasUser))
  }

  // --------------------------------------------------------------- step shapes

  predicate KeepsModel(s: State, op: Op, op': Op) {
    HasModel(op.req) &&
    ((UsesModel(op) && op'.seenModel == op.seenModel)
     || (op.req.model in s.models && op'.seenModel == s.models[op.req.model]))
  }

  /** No document is written: a read, a lost compare-and-swap, a duplicate or refused entry. */
  predicate Quiet(s: State, op: Op, op': Op) {
    && op'.user == op.user && op'.item == op.item
    && op'.userDone == op.userDone && op'.modelDone == op.modelDone
    && (op.userDone ==> op'.seen == op.seen && op'.expiring == op.expiring)
    && (op.modelDone ==> op'.seenModel == op.seenModel)
    && (op'.first == op.first
        || (op.pc == WriteFirst && op'.first == Duplicate && KeyUsed(s.ledger, FirstKey(op.req)) && !Refuses(op.req)))
    && (op'.second == op.second
        || (op.pc == WriteSecond && op'.second == Duplicate && KeyUsed(s.ledger, SecondKey(op.req)) && !Refuses(op.req)))
    && Owns(op') == Owns(op) && Makes(op') == Makes(op) && Active(op') == Active(op) && Lost(op') == Lost(op)
    && (UsesUser(op') ==> (UsesUser(op) && op'.seen == op.seen) || (op.user in s.wallets && op'.seen == s.wallets[op.user]))
    && (UsesModel(op') ==> KeepsModel(s, op, op'))
  }

  predicate CreatesUser(s: State, op: Op, op': Op, wallet: Wallet) {
    && op.pc == CreateUser && op.user !in s.wallets && wallet == NEW_WALLET
    && op' == op.(seen := NEW_WALLET, pc := op'.pc)
    && (op'.pc == Failed || op'.pc == InsertItem || op'.pc == CasUser)
    && (op.req.Hold? ==> op'.pc != CasUser)
  }

  predicate CommitsUser(s: State, op: Op, op': Op, wallet: Wallet) {
    && op.pc == CasUser && op.user in s.wallets && s.wallets[op.user].version == op.seen.version
    && wallet == UserAfter(op, s.wallets[op.user])
    && op' == op.(userDone := true, pc := op'.pc)
    && op'.pc == if op.req.Settle? || op.req.Refund? then FinalizeItem else if op.req.Partial? then CasModel else WriteFirst
  }

  predicate CreatesModel(s: State, op: Op, op': Op, model: ModelWallet) {
    && HasModel(op.req) && op.pc == CreateModel && op.req.model !in s.models && model == NEW_MODEL_WALLET
    && op' == op.(seenModel := NEW_MODEL_WALLET, pc := if op.req.Partial? then CasUser else CasModel)
  }

  predicate CommitsModel(s: State, op: Op, op': Op, model: ModelWallet) {
    && HasModel(op.req) && op.pc == CasModel
    && op.req.model in s.models && s.models[op.req.model].version == op.seenModel.version
    && model == ModelWallet(op.seenModel.earned + EarnedDelta(op.req), op.seenModel.version + 1)
    && op' == op.(modelDone := true, pc := if op.req.Settle? then ReadUser else FinalizeItem)
  }

  predicate Locks(s: State, i: nat, op: Op, op': Op, e: EscrowId, item: Item) {
    && op.pc == LockItem && op.item == Some(e) && e in s.escrows && s.escrows[e].status == Held
    && item == s.escrows[e].(status := BusyStatus(op.req), owner := Some(i))
    && op' == op.(pc := op'.pc, user := if op.req.Settle? then item.user else op.user)
    && (op'.pc == Stuck || op'.pc == if op.req.Settle? then ReadModel else ReadUser)
    && (op'.pc == Stuck <==> op.req.Partial? && op.req.refund + op.req.settle != item.amount)
  }

  predicate Inserts(s: State, i: nat, op: Op, op': Op, e: EscrowId, item: Item) {
    && op.pc == InsertItem && op.req.Hold? && FreshId(s, e)
    && (forall x :: x in s.escrows ==> s.escrows[x].queueItem != op.req.queueItem)
    && item == Item(op.user, op.req.amount, op.req.queueItem, Held, i, None)
    && op' == op.(pc := CasUser, item := Some(e))
  }

  predicate Releases(s: State, op: Op, op': Op, e: EscrowId, item: Item) {
    && op.pc == ReleaseItem && op.item == Some(e) && e in s.escrows
    && item == s.escrows[e].(status := Held, owner := None)
    && op' == op.(pc := Failed)
  }

  predicate Finalizes(s: State, op: Op, op': Op, e: EscrowId, item: Item) {
    && op.pc == FinalizeItem && op.item == Some(e) && e in s.escrows
    && item == s.escrows[e].(status := FinalStatus(op.req), owner := None)
    && op' == op.(pc := WriteFirst)
  }

  predicate Drops(op: Op, op': Op, e: EscrowId) {
    && op.pc == DeleteItem && op.item == Some(e)
    && op' == op.(pc := op'.pc, attempts := op'.attempts, slept := op'.slept)
    && (op'.pc == ReadUser || op'.pc == Failed)
  }

  predicate Claims(s: State, op: Op, op': Op, claim: (Scope, Key)) {
    && op.pc == Claim && claim == ClaimOf(op.req) && claim !in s.claims
    && op' == op.(pc := op'.pc)
    && (if IsRelease(op.req) then op'.pc == LockItem else op'.pc == ReadUser || op'.pc == Failed)
  }

  predicate WritesFirst(s: State, op: Op, op': Op, entry: Entry) {
    && op.pc == WriteFirst && entry == FirstEntry(op) && !KeyUsed(s.ledger, entry.key)
    && op' == op.(first := Written, pc := if HasSecond(op.req) then WriteSecond else Done)
  }

  predicate WritesSecond(s: State, op: Op, op': Op, entry: Entry) {
    && op.pc == WriteSecond && entry == SecondEntry(op) && !KeyUsed(s.ledger, entry.key)
    && op' == op.(second := Written, pc := Done)
  }

  predicate Shape(s: State, i: nat, op: Op, op': Op, write: Write) {
    op'.req == op.req && !Terminal(op.pc) &&
    match write
    case Nothing => Quiet(s, op, op')
    case AddClaim(claim) => Claims(s, op, op', claim)
    case PutWallet(user, wallet) => user == op.user && (CreatesUser(s, op, op', wallet) || CommitsUser(s, op, op', wallet))
    case PutModel(model, mw) =>
      HasModel(op.req) && model == op.req.model && (CreatesModel(s, op, op', mw) || CommitsModel(s, op, op', mw))
    case PutItem(e, item) =>
      || Locks(s, i, op, op', e, item) || Inserts(s, i, op, op', e, item)
      || Releases(s, op, op', e, item) || Finalizes(s, op, op', e, item)
    case DropItem(e) => Drops(op, op', e)
    case AddEntry(entry) => WritesFirst(s, op, op', entry) || WritesSecond(s, op, op', entry)
  }

  /** A committed update of a call is settled: nothing it depends on changes later. */
  predicate Keeps(op: Op, op': Op) {
    && op'.req == op.req
    && (op.userDone ==> op'.userDone && op'.user == op.user && op'.seen == op.seen && op'.expiring == op.expiring)
    && (op.modelDone ==> op'.modelDone && op'.seenModel == op.seenModel)
  }

  lemma ShapeKeeps(s: State, i: nat, op: Op, op': Op, write: Write)
    requires Local(op) && Shape(s, i, op, op', write)
    ensures Keeps(op, op')
  {
  }

  /** The items a call owns or made are where it left them. */
  predicate Placed(s: State, op: Op) {
    (Owns(op) || Makes(op)) ==> op.item.Some? && op.item.value in s.escrows
  }

  predicate Before(s: State, op: Op) { Local(op) && Placed(s, op) }

  // ------------------------------------------------------- every step has a shape

  lemma ClaimShape(s: State, i: nat, op: Op)
    requires Before(s, op) && op.pc == Claim
    ensures Shape(s, i, op, ClaimStep(s, op).0, ClaimStep(s, op).1)
  {
  }

  lemma LockShape(s: State, i: nat, op: Op)
    requires Before(s, op) && op.pc == LockItem
    ensures Shape(s, i, op, LockStep(s, i, op).0, LockStep(s, i, op).1)
  {
  }

  lemma ReadShape(s: State, i: nat, op: Op, expirable: nat)
    requires Before(s, op) && op.pc == ReadUser
    ensures Shape(s, i, op, ReadUserStep(s, op, expirable).0, ReadUserStep(s, op, expirable).1)
  {
  }

  lemma CreateShape(s: State, i: nat, op: Op)
    requires Before(s, op) && op.pc == CreateUser
    ensures Shape(s, i, op, CreateUserStep(s, op).0, CreateUserStep(s, op).1)
  {
  }

  lemma ModelShape(s: State, i: nat, op: Op)
    requires Before(s, op) && HasModel(op.req)
    ensures op.pc == ReadModel ==> Shape(s, i, op, ReadModelStep(s, op).0, ReadModelStep(s, op).1)
    ensures op.pc == CreateModel ==> Shape(s, i, op, CreateModelStep(s, op).0, CreateModelStep(s, op).1)
    ensures op.pc == CasModel ==> Shape(s, i, op, CasModelStep(s, op).0, CasModelStep(s, op).1)
  {
  }

  lemma InsertShape(s: State, i: nat, op: Op, newId: EscrowId)
    requires Before(s, op) && op.pc == InsertItem && FreshId(s, newId)
    ensures Shape(s, i, op, InsertStep(s, i, op, newId).0, InsertStep(s, i, op, newId).1)
  {
  }

  lemma CasUserShape(s: State, i: nat, op: Op)
    requires Before(s, op) && op.pc == CasUser
    ensures Shape(s, i, op, CasUserStep(s, op).0, CasUserStep(s, op).1)
  {
  }

  lemma DeleteShape(s: State, i: nat, op: Op)
    requires Before(s, op) && op.pc == DeleteItem
    ensures Shape(s, i, op, DeleteStep(s, op).0, DeleteStep(s, op).1)
  {
  }

  lemma StatusShape(s: State, i: nat, op: Op)
    requires Before(s, op)
    ensures op.pc == ReleaseItem ==>
              Shape(s, i, op, SetStatusStep(s, op, Held, Failed).0, SetStatusStep(s, op, Held, Failed).1)
    ensures op.pc == FinalizeItem ==>
              var r := SetStatusStep(s, op, FinalStatus(op.req), WriteFirst);
              Shape(s, i, op, r.0, r.1)
  {
  }

  lemma WriteFirstShape(s: State, i: nat, op: Op)
    requires Before(s, op) && op.pc == WriteFirst
    ensures Shape(s, i, op, WriteFirstStep(s, op).0, WriteFirstStep(s, op).1)
  {
  }

  lemma WriteSecondShape(s: State, i: nat, op: Op)
    requires Before(s, op) && op.pc == WriteSecond
    ensures Shape(s, i, op, WriteSecondStep(s, op).0, WriteSecondStep(s, op).1)
  {
  }

  lemma AdvanceShape(s: State, i: nat, newId: EscrowId, expirable: nat)
    requires i < |s.ops| && Before(s, s.ops[i]) && Enabled(s, Run(i, newId, expirable))
    ensures var (op', write) := Advance(s, i, newId, expirable);
            Shape(s, i, s.ops[i], op', write)
  {
    var op := s.ops[i];
    match op.pc
    case Claim => ClaimShape(s, i, op);
    case LockItem => LockShape(s, i, op);
    case ReadUser => ReadShape(s, i, op, expirable);
    case CreateUser => CreateShape(s, i, op);
    case ReadModel | CreateModel | CasModel => ModelShape(s, i, op);
    case InsertItem => InsertShape(s, i, op, newId);
    case CasUser => CasUserShape(s, i, op);
    case DeleteItem => DeleteShape(s, i, op);
    case ReleaseItem | FinalizeItem => StatusShape(s, i, op);
    case WriteFirst => WriteFirstShape(s, i, op);
    case WriteSecond => WriteSecondShape(s, i, op);
  }
}
