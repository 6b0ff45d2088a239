/** The wallet writers as a transition system. Every database call is one atomic
    step; any number of calls interleave and any call may stop for ever between
    two of its steps. A step of one call is computed by `Advance`: the call's new
    local state and the single document it writes. */
module EscrowProtocol {
  import opened Options

  type UserId = string
  type ModelId = string
  type EscrowId = string
  type QueueId = string
  type Key = string

  // ---------------------------------------------------------------- documents

  datatype Wallet = Wallet(available: int, escrow: int, version: nat)
  datatype ModelWallet = ModelWallet(earned: int, version: nat)

  datatype Status = Held | Settling | Settled | Refunding | Refunded | PartialSettling

  /** An escrow document. `maker` and `owner` are not stored by the program: they
      name the call that inserted the document and the call that moved it into its
      present intermediate status. No branch of any step reads them. */
  datatype Item = Item(user: UserId, amount: int, queueItem: QueueId, status: Status,
                       maker: nat, owner: Option<nat>)

  /** One balance of one account. */
  datatype Account = Available(user: UserId) | Escrow(user: UserId) | Earned(model: ModelId)

  datatype Entry = Entry(key: Key, account: Account, amount: int, before: int, after: int)

  // -------------------------------------------------------------------- calls

  /** `refused`: the ledger refuses the entries of the request, because its metadata holds
      personal data or, for a release, because it gives no reason. */
  datatype Request =
    | Hold(user: UserId, amount: int, queueItem: QueueId, key: Key, refused: bool)
    | Settle(escrowId: EscrowId, model: ModelId, amount: int, key: Key, refused: bool)
    | Refund(escrowId: EscrowId, user: UserId, amount: int, key: Key, refused: bool)
    | Partial(escrowId: EscrowId, user: UserId, model: ModelId, refund: int, settle: int, key: Key, refused: bool)
    | Award(user: UserId, amount: int, key: Key, refused: bool)
    | Deduct(user: UserId, amount: int, key: Key, refused: bool)
    | Expire(user: UserId, key: Key)
    | Adjust(user: UserId, amount: int, key: Key, refused: bool)

  datatype Scope = HoldScope | SettleScope | RefundScope | PartialScope | NoScope

  /** Where a call stands: the database call it makes next, or how it ended.
      `Stuck` is a throw that leaves the escrow document in its intermediate status,
      `EntryRefused` the ledger's throw on an entry, after every commit of the call. */
  datatype Pc =
    | Claim | LockItem | ReadUser | CreateUser | ReadModel | CreateModel | InsertItem
    | CasUser | CasModel | DeleteItem | ReleaseItem | FinalizeItem | WriteFirst | WriteSecond
    | Done | Rejected | Failed | Stuck | EntryRefused

  /** What became of one ledger entry of a call. */
  datatype Fate = Pending | Written | Duplicate

  /** A call in progress: its request, program counter, retry counter, milliseconds
      slept, the values it read, and which of its writes have been committed. */
  datatype Op = Op(req: Request, pc: Pc, attempts: nat, slept: nat, user: UserId, item: Option<EscrowId>,
                   seen: Wallet, seenModel: ModelWallet, expiring: int,
                   userDone: bool, modelDone: bool, first: Fate, second: Fate)

  datatype Config = Config(maxAttempts: nat, backoffMs: nat, maxAmount: int)

  /** History of successful compare-and-swap updates: the value the call had read
      and the value it left. */
  datatype Commit =
    | UserCommit(call: nat, user: UserId, before: Wallet, after: Wallet)
    | ModelCommit(call: nat, model: ModelId, earlier: ModelWallet, later: ModelWallet)

  datatype State = State(
    config: Config,
    wallets: map<UserId, Wallet>,
    models: map<ModelId, ModelWallet>,
    escrows: map<EscrowId, Item>,
    claims: set<(Scope, Key)>,
    ledger: seq<Entry>,
    ops: seq<Op>,
    log: seq<Commit>)

  datatype Write =
    | Nothing
    | AddClaim(claim: (Scope, Key))
    | PutWallet(user: UserId, wallet: Wallet)
    | PutModel(model: ModelId, modelWallet: ModelWallet)
    | PutItem(id: EscrowId, item: Item)
    | DropItem(id: EscrowId)
    | AddEntry(entry: Entry)

  const NEW_WALLET := Wallet(0, 0, 0)
  const NEW_MODEL_WALLET := ModelWallet(0, 0)

  // ----------------------------------------------------- what a request asks for

  predicate IsRelease(req: Request) { req.Settle? || req.Refund? || req.Partial? }

  predicate IsEscrow(req: Request) { req.Hold? || IsRelease(req) }

  /** Calls that also credit a model wallet. */
  predicate HasModel(req: Request) { req.Settle? || req.Partial? }

  /** The metadata of an expiry is the service's own. */
  predicate Refuses(req: Request) { !req.Expire? && req.refused }

  function ScopeOf(req: Request): Scope {
    match req
    case Hold(_, _, _, _, _) => HoldScope
    case Settle(_, _, _, _, _) => SettleScope
    case Refund(_, _, _, _, _) => RefundScope
    case Partial(_, _, _, _, _, _, _) => PartialScope
    case _ => NoScope
  }

  function ClaimOf(req: Request): (Scope, Key) { (ScopeOf(req), req.key) }

  function BusyStatus(req: Request): Status {
    if req.Settle? then Settling else if req.Refund? then Refunding else PartialSettling
  }

  function FinalStatus(req: Request): Status { if req.Refund? then Refunded else Settled }

  predicate Busy(status: Status) { status == Settling || status == Refunding || status == PartialSettling }

  predicate Final(status: Status) { status == Settled || status == Refunded }

  /** The change a call makes to its user's available balance. */
  function AvailableDelta(op: Op): int {
    match op.req
    case Hold(_, amount, _, _, _) => -amount
    case Settle(_, _, _, _, _) => 0
    case Refund(_, _, amount, _, _) => amount
    case Partial(_, _, _, refund, _, _, _) => refund
    case Award(_, amount, _, _) => amount
    case Deduct(_, amount, _, _) => -amount
    case Expire(_, _) => -op.expiring
    case Adjust(_, amount, _, _) => amount
  }

  function EscrowDelta(req: Request): int {
    match req
    case Hold(_, amount, _, _, _) => amount
    case Settle(_, _, amount, _, _) => -amount
    case Refund(_, _, amount, _, _) => -amount
    case Partial(_, _, _, refund, settle, _, _) => -(refund + settle)
    case _ => 0
  }

  function EarnedDelta(req: Request): int {
    match req
    case Settle(_, _, amount, _, _) => amount
    case Partial(_, _, _, _, settle, _, _) => settle
    case _ => 0
  }

  // ------------------------------------------------------------------- entries

  /** The account and amount of a call's first ledger entry. */
  function FirstAccount(op: Op): Account {
    if op.req.Settle? then Earned(op.req.model) else Available(op.user)
  }

  function FirstAmount(op: Op): int {
    if op.req.Settle? then op.req.amount else AvailableDelta(op)
  }

  /** The account and amount of the second, where there is one. */
  function SecondAccount(op: Op): Account {
    if op.req.Partial? then Earned(op.req.model) else Escrow(op.user)
  }

  function SecondAmount(req: Request): int {
    if req.Partial? then req.settle else EscrowDelta(req)
  }

  function FirstKey(req: Request): Key {
    req.key + if req.Hold? then "_debit" else if req.Partial? then "_refund" else ""
  }

  function SecondKey(req: Request): Key {
    req.key + if req.Partial? then "_settle" else "_credit"
  }

  function FirstEntry(op: Op): Entry {
    var before := if op.req.Settle? then op.seenModel.earned else op.seen.available;
    Entry(FirstKey(op.req), FirstAccount(op), FirstAmount(op), before, before + FirstAmount(op))
  }

  predicate HasSecond(req: Request) { req.Hold? || req.Partial? }

  function SecondEntry(op: Op): Entry {
    var before := if op.req.Partial? then op.seenModel.earned else op.seen.escrow;
    Entry(SecondKey(op.req), SecondAccount(op), SecondAmount(op.req), before, before + SecondAmount(op.req))
  }

  predicate KeyUsed(ledger: seq<Entry>, key: Key) {
    exists k :: 0 <= k < |ledger| && ledger[k].key == key
  }

  // --------------------------------------------------------------- single steps

  function Pow2(n: nat): nat { if n == 0 then 1 else 2 * Pow2(n - 1) }

  /** The back-off time doubled `n` times. */
  function Backoff(ms: nat, n: nat): nat { if n == 0 then ms else 2 * Backoff(ms, n - 1) }

  function ClaimStep(s: State, op: Op): (Op, Write) {
    if ClaimOf(op.req) in s.claims then (op.(pc := Rejected), Nothing)
    else
      (op.(pc := if IsRelease(op.req) then LockItem
                 else if s.config.maxAttempts > 0 then ReadUser else Failed),
       AddClaim(ClaimOf(op.req)))
  }

  /** `findOneAndUpdate` from 'held' to the call's intermediate status. A partial
      settle validates its amounts only afterwards. */
  function LockStep(s: State, i: nat, op: Op): (Op, Write) {
    if op.item.Some? && op.item.value in s.escrows && s.escrows[op.item.value].status == Held then
      var item := s.escrows[op.item.value];
      var pc' := match op.req
        case Settle(_, _, _, _, _) => ReadModel
        case Partial(_, _, _, refund, settle, _, _) => if refund + settle == item.amount then ReadUser else Stuck
        case _ => ReadUser;
      (op.(pc := pc', user := if op.req.Settle? then item.user else op.user),
       PutItem(op.item.value, item.(status := BusyStatus(op.req), owner := Some(i))))
    else (op.(pc := Failed), Nothing)
  }

  /** The branch a call takes once it has its user's wallet in hand. */
  function AfterRead(op: Op, wallet: Wallet, expirable: nat): Op {
    var op' := op.(seen := wallet);
    match op.req
    case Hold(_, amount, _, _, _) => op'.(pc := if wallet.available < amount then Failed else InsertItem)
    case Partial(_, _, _, _, _, _, _) => op'.(pc := ReadModel)
    case Deduct(_, amount, _, _) => op'.(pc := if wallet.available < amount then Failed else CasUser)
    case Adjust(_, amount, _, _) => op'.(pc := if wallet.available + amount < 0 then Failed else CasUser)
    case Expire(_, _) =>
      var amount := if expirable < wallet.available then expirable else wallet.available;
      if amount <= 0 then op'.(pc := Done) else op'.(pc := CasUser, expiring := amount)
    case _ => op'.(pc := CasUser)
  }

  function ReadUserStep(s: State, op: Op, expirable: nat): (Op, Write) {
    if op.req.Expire? && expirable == 0 then (op.(pc := Done), Nothing)
    else if op.user in s.wallets then (AfterRead(op, s.wallets[op.user], expirable), Nothing)
    else
      (op.(pc := if op.req.Hold? || op.req.Award? then CreateUser
                 else if IsRelease(op.req) then Stuck else Failed),
       Nothing)
  }

  /** Inserting a second wallet for a user violates the unique index and throws. */
  function CreateUserStep(s: State, op: Op): (Op, Write) {
    if op.user in s.wallets then (op.(pc := Failed), Nothing)
    else (AfterRead(op, NEW_WALLET, 0), PutWallet(op.user, NEW_WALLET))
  }

  function AfterModelRead(op: Op, model: ModelWallet): Op {
    op.(seenModel := model, pc := if op.req.Partial? then CasUser else CasModel)
  }

  function ReadModelStep(s: State, op: Op): (Op, Write)
    requires HasModel(op.req)
  {
    if op.req.model in s.models then (AfterModelRead(op, s.models[op.req.model]), Nothing)
    else (op.(pc := CreateModel), Nothing)
  }

  function CreateModelStep(s: State, op: Op): (Op, Write)
    requires HasModel(op.req)
  {
    if op.req.model in s.models then (op.(pc := Stuck), Nothing)
    else (AfterModelRead(op, NEW_MODEL_WALLET), PutModel(op.req.model, NEW_MODEL_WALLET))
  }

  /** The unique index on queue items makes the insert throw for a second item. */
  function InsertStep(s: State, i: nat, op: Op, newId: EscrowId): (Op, Write)
    requires op.req.Hold?
  {
    if exists e :: e in s.escrows && s.escrows[e].queueItem == op.req.queueItem then (op.(pc := Failed), Nothing)
    else
      (op.(pc := CasUser, item := Some(newId)),
       PutItem(newId, Item(op.user, op.req.amount, op.req.queueItem, Held, i, None)))
  }

  /** Retry of a call that lost its wallet compare-and-swap. */
  function LoseUser(cfg: Config, op: Op): Op {
    if op.req.Hold? then op.(pc := DeleteItem)
    else if IsRelease(op.req) then op.(pc := ReleaseItem)
    else if op.req.Award? || op.req.Deduct? then
      op.(pc := if op.attempts + 1 < cfg.maxAttempts then ReadUser else Failed,
          attempts := op.attempts + 1,
          slept := op.slept + Backoff(cfg.backoffMs, op.attempts))
    else op.(pc := ReadUser)
  }

  /** A hold sets absolute balances computed from what it read; every other call
      increments the balances it finds. */
  function UserAfter(op: Op, found: Wallet): Wallet {
    if op.req.Hold? then
      Wallet(op.seen.available - op.req.amount, op.seen.escrow + op.req.amount, op.seen.version + 1)
    else
      Wallet(found.available + AvailableDelta(op), found.escrow + EscrowDelta(op.req), found.version + 1)
  }

  function CasUserStep(s: State, op: Op): (Op, Write) {
    if op.user in s.wallets && s.wallets[op.user].version == op.seen.version
       && (op.req.Deduct? ==> s.wallets[op.user].available >= op.req.amount)
    then
      (op.(userDone := true,
           pc := if op.req.Settle? || op.req.Refund? then FinalizeItem
                 else if op.req.Partial? then CasModel else WriteFirst),
       PutWallet(op.user, UserAfter(op, s.wallets[op.user])))
    else (LoseUser(s.config, op), Nothing)
  }

  /** A settle that loses here throws without releasing the item; a partial settle
      releases it, though its user has been debited. */
  function CasModelStep(s: State, op: Op): (Op, Write)
    requires HasModel(op.req)
  {
    if op.req.model in s.models && s.models[op.req.model].version == op.seenModel.version then
      (op.(modelDone := true, pc := if op.req.Settle? then ReadUser else FinalizeItem),
       PutModel(op.req.model,
                ModelWallet(op.seenModel.earned + EarnedDelta(op.req), s.models[op.req.model].version + 1)))
    else (op.(pc := if op.req.Settle? then Stuck else ReleaseItem), Nothing)
  }

  function DeleteStep(s: State, op: Op): (Op, Write) {
    var op' := if op.attempts + 1 < s.config.maxAttempts
      then op.(pc := ReadUser, attempts := op.attempts + 1,
               slept := op.slept + Backoff(s.config.backoffMs, op.attempts + 1))
      else op.(pc := Failed);
    (op', if op.item.Some? then DropItem(op.item.value) else Nothing)
  }

  /** `updateOne` by escrow id alone: no status is matched. */
  function SetStatusStep(s: State, op: Op, status: Status, pc': Pc): (Op, Write) {
    (op.(pc := pc'),
     if op.item.Some? && op.item.value in s.escrows
     then PutItem(op.item.value, s.escrows[op.item.value].(status := status, owner := None)) else Nothing)
  }

  /** `createEntry` past its checks: a used key returns the existing entry and writes nothing. */
  function WriteFate(s: State, entry: Entry): (Fate, Write) {
    if entry.amount == 0 then (Pending, Nothing)
    else if KeyUsed(s.ledger, entry.key) then (Duplicate, Nothing)
    else (Written, AddEntry(entry))
  }

  /** An entry is checked before its key is looked up; a part of zero points has no entry. */
  function WriteFirstStep(s: State, op: Op): (Op, Write) {
    if FirstAmount(op) != 0 && Refuses(op.req) then (op.(pc := EntryRefused), Nothing)
    else
      var (fate, write) := WriteFate(s, FirstEntry(op));
      (op.(first := fate, pc := if HasSecond(op.req) then WriteSecond else Done), write)
  }

  function WriteSecondStep(s: State, op: Op): (Op, Write) {
    if SecondAmount(op.req) != 0 && Refuses(op.req) then (op.(pc := EntryRefused), Nothing)
    else
      var (fate, write) := WriteFate(s, SecondEntry(op));
      (op.(second := fate, pc := Done), write)
  }

  /** The next atomic step of call `i`. `newId` is the generated escrow id and
      `expirable` the expired total found by the ledger query, both unconstrained
      by the state of the call. */
  function Advance(s: State, i: nat, newId: EscrowId, expirable: nat): (Op, Write)
    requires i < |s.ops|
  {
    var op := s.ops[i];
    match op.pc
    case Claim => ClaimStep(s, op)
    case LockItem => LockStep(s, i, op)
    case ReadUser => ReadUserStep(s, op, expirable)
    case CreateUser => CreateUserStep(s, op)
    case ReadModel => if HasModel(op.req) then ReadModelStep(s, op) else (op, Nothing)
    case CreateModel => if HasModel(op.req) then CreateModelStep(s, op) else (op, Nothing)
    case InsertItem => if op.req.Hold? then InsertStep(s, i, op, newId) else (op, Nothing)
    case CasUser => CasUserStep(s, op)
    case CasModel => if HasModel(op.req) then CasModelStep(s, op) else (op, Nothing)
    case DeleteItem => DeleteStep(s, op)
    case ReleaseItem => SetStatusStep(s, op, Held, Failed)
    case FinalizeItem => SetStatusStep(s, op, FinalStatus(op.req), WriteFirst)
    case WriteFirst => WriteFirstStep(s, op)
    case WriteSecond => WriteSecondStep(s, op)
    case Done | Rejected | Failed | Stuck | EntryRefused => (op, Nothing)
  }

  // ----------------------------------------------------------------- transitions

  function Commits(i: nat, op: Op, op': Op, write: Write): seq<Commit> {
    if write.PutWallet? && op'.userDone && !op.userDone then
      [UserCommit(i, write.user, op.seen, write.wallet)]
    else if write.PutModel? && op'.modelDone && !op.modelDone then
      [ModelCommit(i, write.model, op.seenModel, write.modelWallet)]
    else []
  }

  function Perform(s: State, i: nat, op': Op, write: Write): State
    requires i < |s.ops|
  {
    var s' := s.(ops := s.ops[i := op'], log := s.log + Commits(i, s.ops[i], op', write));
    match write
    case Nothing => s'
    case AddClaim(claim) => s'.(claims := s.claims + {claim})
    case PutWallet(user, wallet) => s'.(wallets := s.wallets[user := wallet])
    case PutModel(model, modelWallet) => s'.(models := s.models[model := modelWallet])
    case PutItem(id, item) => s'.(escrows := s.escrows[id := item])
    case DropItem(id) => s'.(escrows := s.escrows - {id})
    case AddEntry(entry) => s'.(ledger := s.ledger + [entry])
  }

  datatype Action = Begin(req: Request) | Run(i: nat, newId: EscrowId, expirable: nat)

  /** The call has thrown. */
  predicate Threw(pc: Pc) { pc == Rejected || pc == Failed || pc == Stuck || pc == EntryRefused }

  predicate Terminal(pc: Pc) { pc == Done || Threw(pc) }

  /** An award or deduction validates its amount, an adjustment its magnitude. */
  predicate Admissible(cfg: Config, req: Request) {
    match req
    case Award(_, amount, _, _) => 1 <= amount <= cfg.maxAmount && cfg.maxAttempts > 0
    case Deduct(_, amount, _, _) => 1 <= amount <= cfg.maxAmount && cfg.maxAttempts > 0
    case Adjust(_, amount, _, _) => amount != 0 && -cfg.maxAmount <= amount <= cfg.maxAmount
    case _ => true
  }

  function NewOp(cfg: Config, req: Request): Op {
    Op(req,
       if IsEscrow(req) then Claim else if Admissible(cfg, req) then ReadUser else Failed,
       0, 0,
       if req.Settle? then "" else req.user,
       if IsRelease(req) then Some(req.escrowId) else None,
       NEW_WALLET, NEW_MODEL_WALLET, 0, false, false, Pending, Pending)
  }

  /** The item's hold has returned its escrow id to a caller. */
  predicate Returned(s: State, e: EscrowId) {
    e in s.escrows && s.escrows[e].maker < |s.ops| && s.ops[s.escrows[e].maker].pc == Done
  }

  /** What callers promise about a release: the escrow id, when it names an item at
      all, was returned by a hold; amount and user are the item's. */
  predicate Honest(s: State, req: Request) {
    match req
    case Hold(_, amount, _, _, _) => amount > 0
    case Settle(e, _, amount, _, _) => e in s.escrows ==> Returned(s, e) && s.escrows[e].amount == amount
    case Refund(e, user, amount, _, _) =>
      e in s.escrows ==> Returned(s, e) && s.escrows[e].amount == amount && s.escrows[e].user == user
    case Partial(e, user, _, refund, settle, _, _) =>
      refund >= 0 && settle >= 0 && (e in s.escrows ==> Returned(s, e) && s.escrows[e].user == user)
    case _ => true
  }

  /** A generated id is in no document and named by no call. */
  predicate FreshId(s: State, e: EscrowId) {
    e !in s.escrows && forall j :: 0 <= j < |s.ops| ==> s.ops[j].item != Some(e)
  }

  predicate Enabled(s: State, a: Action) {
    match a
    case Begin(req) => Honest(s, req)
    case Run(i, newId, _) =>
      i < |s.ops| && !Terminal(s.ops[i].pc) && (s.ops[i].pc == InsertItem ==> FreshId(s, newId))
  }

  function Step(s: State, a: Action): State {
    if !Enabled(s, a) then s
    else
      match a
      case Begin(req) => s.(ops := s.ops + [NewOp(s.config, req)])
      case Run(i, newId, expirable) =>
        var (op', write) := Advance(s, i, newId, expirable);
        Perform(s, i, op', write)
  }

  function Init(cfg: Config): State { State(cfg, map[], map[], map[], {}, [], [], []) }

  /** The state after a run. Every sequence of actions is a run: one that is not
      enabled when its turn comes changes nothing. */
  function Exec(cfg: Config, acts: seq<Action>): State {
    if acts == [] then Init(cfg) else Step(Exec(cfg, acts[..|acts| - 1]), acts[|acts| - 1])
  }
}
