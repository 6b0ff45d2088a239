/** Version matching makes the interleaved updates a serial execution: a
    compare-and-swap that succeeds sees exactly the balances its call read. */
module EscrowSerial {
  import opened Options
  import opened EscrowProtocol
  import opened EscrowSteps
  import opened EscrowItems

  // --------------------------------------------------------------- current reads

  predicate Current(seen: Wallet, now: Wallet) {
    seen.version <= now.version && (seen.version == now.version ==> seen == now)
  }

  predicate CurrentModel(seen: ModelWallet, now: ModelWallet) {
    seen.version <= now.version && (seen.version == now.version ==> seen == now)
  }

  predicate ReadOk(s: State, op: Op) {
    && (UsesUser(op) ==> op.user in s.wallets && Current(op.seen, s.wallets[op.user]))
    && (UsesModel(op) ==> op.req.model in s.models && CurrentModel(op.seenModel, s.models[op.req.model]))
  }

  ghost predicate ReadsOk(s: State) { forall i :: 0 <= i < |s.ops| ==> ReadOk(s, s.ops[i]) }

  lemma QuietRead(s: State, i: nat, op': Op)
    requires Ready(s, i, op', Nothing) && ReadOk(s, s.ops[i])
    ensures ReadOk(s, op')
  {
  }

  lemma WalletRead(s: State, i: nat, op': Op, write: Write)
    requires Ready(s, i, op', write) && ReadOk(s, s.ops[i]) && (write.PutWallet? || write.PutModel?)
    ensures ReadOk(Perform(s, i, op', write), op')
  {
  }

  /** A call that writes anything but a wallet has nothing it read left to use, except a
      hold between its insert and its compare-and-swap. */
  lemma NothingRead(s: State, i: nat, op': Op, write: Write)
    requires Ready(s, i, op', write) && !write.Nothing? && !write.PutWallet? && !write.PutModel?
    ensures !UsesModel(op')
    ensures UsesUser(op') ==> UsesUser(s.ops[i]) && op'.seen == s.ops[i].seen && op'.user == s.ops[i].user
  {
  }

  lemma ReadSelf(s: State, i: nat, op': Op, write: Write)
    requires Ready(s, i, op', write) && ReadOk(s, s.ops[i])
    ensures ReadOk(Perform(s, i, op', write), op')
  {
    if write.Nothing? { QuietRead(s, i, op'); }
    else if write.PutWallet? || write.PutModel? { WalletRead(s, i, op', write); }
    else { NothingRead(s, i, op', write); }
  }

  lemma ReadOther(s: State, i: nat, op': Op, write: Write, other: Op)
    requires Ready(s, i, op', write) && ReadOk(s, s.ops[i]) && ReadOk(s, other)
    ensures ReadOk(Perform(s, i, op', write), other)
  {
  }

  // ------------------------------------------------------------------- solvency

  /** No available and no earned balance is negative. */
  ghost predicate Solvent(s: State) {
    && (forall u :: u in s.wallets ==> s.wallets[u].available >= 0)
    && (forall m :: m in s.models ==> s.models[m].earned >= 0)
  }

  lemma SolventStep(s: State, i: nat, op': Op, write: Write)
    requires Ready(s, i, op', write) && ReadOk(s, s.ops[i]) && ItemOfOk(s, s.ops[i]) && Solvent(s)
    ensures Solvent(Perform(s, i, op', write))
  {
  }

  // ------------------------------------------------------------ serial execution

  /** What a call does to its user's wallet when it runs alone; None when it refuses. */
  function RunAlone(op: Op, w: Wallet): Option<Wallet> {
    match op.req
    case Hold(_, amount, _, _, _) =>
      if w.available < amount then None else Some(Wallet(w.available - amount, w.escrow + amount, w.version + 1))
    case Settle(_, _, amount, _, _) => Some(Wallet(w.available, w.escrow - amount, w.version + 1))
    case Refund(_, _, amount, _, _) => Some(Wallet(w.available + amount, w.escrow - amount, w.version + 1))
    case Partial(_, _, _, refund, settle, _, _) =>
      Some(Wallet(w.available + refund, w.escrow - refund - settle, w.version + 1))
    case Award(_, amount, _, _) => Some(Wallet(w.available + amount, w.escrow, w.version + 1))
    case Deduct(_, amount, _, _) =>
      if w.available < amount then None else Some(Wallet(w.available - amount, w.escrow, w.version + 1))
    case Expire(_, _) =>
      if 0 < op.expiring <= w.available then Some(Wallet(w.available - op.expiring, w.escrow, w.version + 1)) else None
    case Adjust(_, amount, _, _) =>
      if w.available + amount < 0 then None else Some(Wallet(w.available + amount, w.escrow, w.version + 1))
  }

  /** Likewise for the model wallet of a settle or partial settle. */
  function RunAloneModel(op: Op, w: ModelWallet): Option<ModelWallet> {
    match op.req
    case Settle(_, _, amount, _, _) => Some(ModelWallet(w.earned + amount, w.version + 1))
    case Partial(_, _, _, _, settle, _, _) => Some(ModelWallet(w.earned + settle, w.version + 1))
    case _ => None
  }

  function WalletNow(s: State, u: UserId): Wallet { if u in s.wallets then s.wallets[u] else NEW_WALLET }

  function ModelNow(s: State, m: ModelId): ModelWallet { if m in s.models then s.models[m] else NEW_MODEL_WALLET }

  /** The committed calls, one after another in commit order, each running alone on
      what the previous one left. */
  function Replay(ops: seq<Op>, log: seq<Commit>, u: UserId): Option<Wallet> {
    if log == [] then Some(NEW_WALLET)
    else
      var (before, c) := (Replay(ops, log[..|log| - 1], u), log[|log| - 1]);
      if c.UserCommit? && c.user == u then
        if before.Some? && c.call < |ops| then RunAlone(ops[c.call], before.value) else None
      else before
  }

  function ReplayModel(ops: seq<Op>, log: seq<Commit>, m: ModelId): Option<ModelWallet> {
    if log == [] then Some(NEW_MODEL_WALLET)
    else
      var (before, c) := (ReplayModel(ops, log[..|log| - 1], m), log[|log| - 1]);
      if c.ModelCommit? && c.model == m then
        if before.Some? && c.call < |ops| then RunAloneModel(ops[c.call], before.value) else None
      else before
  }

  /** A commit's call is committed, and its recorded balances are what it read and left. */
  predicate CommitOk(ops: seq<Op>, c: Commit) {
    && c.call < |ops|
    && match c
       case UserCommit(i, u, before, after) =>
         ops[i].userDone && ops[i].user == u && ops[i].seen == before && RunAlone(ops[i], before) == Some(after)
       case ModelCommit(i, m, before, after) =>
         && ops[i].modelDone && HasModel(ops[i].req) && ops[i].req.model == m && ops[i].seenModel == before
         && RunAloneModel(ops[i], before) == Some(after)
  }

  ghost predicate CommitsOk(s: State) { forall k :: 0 <= k < |s.log| ==> CommitOk(s.ops, s.log[k]) }

  /** Each committed update occurs once. */
  ghost predicate OncePerCall(s: State) {
    forall k, l | 0 <= k < l < |s.log| && s.log[k].call == s.log[l].call ::
      s.log[k].UserCommit? != s.log[l].UserCommit?
  }

  /** A commit recorded the balances that the commits before it left. */
  predicate ChainedAt(ops: seq<Op>, log: seq<Commit>, k: nat)
    requires k < |log|
  {
    match log[k]
    case UserCommit(_, u, before, _) => Replay(ops, log[..k], u) == Some(before)
    case ModelCommit(_, m, before, _) => ReplayModel(ops, log[..k], m) == Some(before)
  }

  ghost predicate Chained(s: State) { forall k :: 0 <= k < |s.log| ==> ChainedAt(s.ops, s.log, k) }

  ghost predicate Serial(s: State) {
    && CommitsOk(s) && OncePerCall(s) && Chained(s)
    && (forall u :: Replay(s.ops, s.log, u) == Some(WalletNow(s, u)))
    && (forall m :: ReplayModel(s.ops, s.log, m) == Some(ModelNow(s, m)))
  }

  /** Every committed update is in the log. */
  ghost predicate Logged(s: State) {
    && (forall i | 0 <= i < |s.ops| && s.ops[i].userDone ::
          exists k :: 0 <= k < |s.log| && s.log[k].UserCommit? && s.log[k].call == i)
    && (forall i | 0 <= i < |s.ops| && s.ops[i].modelDone ::
          exists k :: 0 <= k < |s.log| && s.log[k].ModelCommit? && s.log[k].call == i)
  }

  lemma CommitKept(ops: seq<Op>, i: nat, op': Op, c: Commit)
    requires i < |ops| && Keeps(ops[i], op') && CommitOk(ops, c)
    ensures CommitOk(ops[i := op'], c)
    ensures c.UserCommit? ==> forall w :: RunAlone(ops[i := op'][c.call], w) == RunAlone(ops[c.call], w)
    ensures c.ModelCommit? ==> forall w :: RunAloneModel(ops[i := op'][c.call], w) == RunAloneModel(ops[c.call], w)
  {
  }

  lemma {:induction false} ReplayKept(ops: seq<Op>, i: nat, op': Op, log: seq<Commit>, u: UserId, m: ModelId)
    requires i < |ops| && Keeps(ops[i], op')
    requires forall k :: 0 <= k < |log| ==> CommitOk(ops, log[k])
    ensures Replay(ops[i := op'], log, u) == Replay(ops, log, u)
    ensures ReplayModel(ops[i := op'], log, m) == ReplayModel(ops, log, m)
  {
    if log != [] {
      ReplayKept(ops, i, op', log[..|log| - 1], u, m);
      CommitKept(ops, i, op', log[|log| - 1]);
    }
  }

  predicate CommitReady(s: State, i: nat, op': Op, write: Write) {
    Ready(s, i, op', write) && ReadOk(s, s.ops[i])
  }

  /** What a successful compare-and-swap leaves is what the call would have left had
      it run alone at this moment. */
  lemma CasIsAlone(s: State, i: nat, op': Op, write: Write)
    requires CommitReady(s, i, op', write) && write.PutWallet? && CommitsUser(s, s.ops[i], op', write.wallet)
    ensures s.ops[i].seen == WalletNow(s, s.ops[i].user) && RunAlone(op', s.ops[i].seen) == Some(write.wallet)
  {
  }

  lemma ModelIsCurrent(s: State, i: nat, op': Op, write: Write)
    requires CommitReady(s, i, op', write) && write.PutModel? && CommitsModel(s, s.ops[i], op', write.modelWallet)
    ensures s.ops[i].seenModel == ModelNow(s, write.model) && UsesModel(s.ops[i])
  {
  }

  lemma CasIsAloneModel(s: State, i: nat, op': Op, write: Write)
    requires CommitReady(s, i, op', write) && write.PutModel? && CommitsModel(s, s.ops[i], op', write.modelWallet)
    ensures s.ops[i].seenModel == ModelNow(s, write.model)
    ensures RunAloneModel(op', s.ops[i].seenModel) == Some(write.modelWallet)
  {
    ModelIsCurrent(s, i, op', write);
  }

  predicate CommitIs(s: State, i: nat, op': Op, c: Commit)
    requires i < |s.ops|
  {
    && c.call == i && CommitOk(s.ops[i := op'], c)
    && (c.UserCommit? ==> !s.ops[i].userDone && c.before == WalletNow(s, c.user))
    && (c.ModelCommit? ==> !s.ops[i].modelDone && c.earlier == ModelNow(s, c.model))
  }

  lemma CommitNew(s: State, i: nat, op': Op, write: Write)
    requires CommitReady(s, i, op', write)
    ensures var cs := Commits(i, s.ops[i], op', write);
            |cs| <= 1 && forall c :: c in cs ==> CommitIs(s, i, op', c)
  {
    var op, cs := s.ops[i], Commits(i, s.ops[i], op', write);
    if write.PutWallet? && CommitsUser(s, op, op', write.wallet) {
      CasIsAlone(s, i, op', write);
      assert CommitIs(s, i, op', UserCommit(i, write.user, op.seen, write.wallet));
    } else if write.PutModel? && CommitsModel(s, op, op', write.modelWallet) {
      CasIsAloneModel(s, i, op', write);
      assert CommitIs(s, i, op', ModelCommit(i, write.model, op.seenModel, write.modelWallet));
    } else {
      assert cs == [];
    }
  }

  lemma NowAfter(s: State, i: nat, op': Op, write: Write, u: UserId, m: ModelId)
    requires Ready(s, i, op', write)
    ensures var s' := Perform(s, i, op', write);
            var cs := Commits(i, s.ops[i], op', write);
            && WalletNow(s', u) == (if cs != [] && cs[0].UserCommit? && cs[0].user == u then cs[0].after else WalletNow(s, u))
            && ModelNow(s', m) == (if cs != [] && cs[0].ModelCommit? && cs[0].model == m then cs[0].later else ModelNow(s, m))
  {
  }

  lemma ReplayStep(s: State, i: nat, op': Op, write: Write, u: UserId, m: ModelId)
    requires Ready(s, i, op', write) && ReadOk(s, s.ops[i]) && Serial(s)
    ensures var s' := Perform(s, i, op', write);
            && Replay(s'.ops, s'.log, u) == Some(WalletNow(s', u))
            && ReplayModel(s'.ops, s'.log, m) == Some(ModelNow(s', m))
  {
    var s' := Perform(s, i, op', write);
    var cs := Commits(i, s.ops[i], op', write);
    assert s'.ops == s.ops[i := op'] && s'.log == s.log + cs;
    ShapeKeeps(s, i, s.ops[i], op', write);
    CommitNew(s, i, op', write);
    ReplayKept(s.ops, i, op', s.log, u, m);
    NowAfter(s, i, op', write, u, m);
    if cs == [] {
      assert s'.log == s.log;
    } else {
      assert s'.log[..|s'.log| - 1] == s.log && s'.log[|s'.log| - 1] == cs[0] && cs[0] in cs;
    }
  }

  lemma LogStep(s: State, i: nat, op': Op, write: Write)
    requires Ready(s, i, op', write) && ReadOk(s, s.ops[i]) && CommitsOk(s) && OncePerCall(s) && Logged(s)
    ensures var s' := Perform(s, i, op', write); CommitsOk(s') && OncePerCall(s') && Logged(s')
  {
    var s' := Perform(s, i, op', write);
    var cs := Commits(i, s.ops[i], op', write);
    ShapeKeeps(s, i, s.ops[i], op', write);
    CommitNew(s, i, op', write);
    assert s'.ops == s.ops[i := op'] && s'.log == s.log + cs;
    forall k | 0 <= k < |s'.log| ensures CommitOk(s'.ops, s'.log[k]) {
      if k < |s.log| { CommitKept(s.ops, i, op', s.log[k]); } else { assert s'.log[k] in cs; }
    }
    LoggedStep(s, i, op', write);
    OnceStep(s, i, op', write);
  }

  lemma ChainStep(s: State, i: nat, op': Op, write: Write)
    requires CommitReady(s, i, op', write) && Serial(s)
    ensures Chained(Perform(s, i, op', write))
  {
    var s', op := Perform(s, i, op', write), s.ops[i];
    ShapeKeeps(s, i, op, op', write);
    CommitNew(s, i, op', write);
    assert s'.ops == s.ops[i := op'] && s'.log == s.log + Commits(i, op, op', write);
    forall k | 0 <= k < |s'.log| ensures ChainedAt(s'.ops, s'.log, k) {
      var u := if s'.log[k].UserCommit? then s'.log[k].user else "";
      var m := if s'.log[k].ModelCommit? then s'.log[k].model else "";
      assert s'.log[..k] == s.log[..k];
      ReplayKept(s.ops, i, op', s.log[..k], u, m);
      if k < |s.log| {
        assert ChainedAt(s.ops, s.log, k);
      } else {
        assert s'.log[k] in Commits(i, op, op', write) && s.log[..k] == s.log;
      }
    }
  }

  lemma OnceStep(s: State, i: nat, op': Op, write: Write)
    requires Ready(s, i, op', write) && ReadOk(s, s.ops[i]) && CommitsOk(s) && OncePerCall(s)
    ensures OncePerCall(Perform(s, i, op', write))
  {
    var s' := Perform(s, i, op', write);
    CommitNew(s, i, op', write);
    assert s'.log == s.log + Commits(i, s.ops[i], op', write);
    forall k, l | 0 <= k < l < |s'.log| && s'.log[k].call == s'.log[l].call
      ensures s'.log[k].UserCommit? != s'.log[l].UserCommit?
    {
      assert CommitOk(s.ops, s'.log[k]);
      if l >= |s.log| { assert s'.log[l] in Commits(i, s.ops[i], op', write); }
    }
  }

  lemma LoggedStep(s: State, i: nat, op': Op, write: Write)
    requires Ready(s, i, op', write) && Logged(s)
    ensures Logged(Perform(s, i, op', write))
  {
    var s' := Perform(s, i, op', write);
    var cs := Commits(i, s.ops[i], op', write);
    assert s'.ops == s.ops[i := op'] && s'.log == s.log + cs;
    forall j | 0 <= j < |s'.ops| && s'.ops[j].userDone
      ensures exists k :: 0 <= k < |s'.log| && s'.log[k].UserCommit? && s'.log[k].call == j
    {
      if s.ops[j].userDone {
        var k :| 0 <= k < |s.log| && s.log[k].UserCommit? && s.log[k].call == j;
        assert s'.log[k] == s.log[k];
      } else {
        assert s'.log[|s.log|].UserCommit?;
      }
    }
    forall j | 0 <= j < |s'.ops| && s'.ops[j].modelDone
      ensures exists k :: 0 <= k < |s'.log| && s'.log[k].ModelCommit? && s'.log[k].call == j
    {
      if s.ops[j].modelDone {
        var k :| 0 <= k < |s.log| && s.log[k].ModelCommit? && s.log[k].call == j;
        assert s'.log[k] == s.log[k];
      } else {
        assert s'.log[|s.log|].ModelCommit?;
      }
    }
  }

  // ------------------------------------------------------------------- every run

  ghost predicate Ordered(s: State) { Custody(s) && ReadsOk(s) && Solvent(s) && Serial(s) && Logged(s) }

  lemma ReadsStep(s: State, i: nat, op': Op, write: Write)
    requires Ready(s, i, op', write) && ReadsOk(s)
    ensures ReadsOk(Perform(s, i, op', write))
  {
    var s' := Perform(s, i, op', write);
    assert s'.ops == s.ops[i := op'];
    assert ReadOk(s, s.ops[i]);
    forall j | 0 <= j < |s'.ops| ensures ReadOk(s', s'.ops[j]) {
      if j == i { ReadSelf(s, i, op', write); } else { ReadOther(s, i, op', write, s.ops[j]); }
    }
  }

  lemma SerialStep(s: State, i: nat, op': Op, write: Write)
    requires Ready(s, i, op', write) && ReadOk(s, s.ops[i]) && Serial(s) && Logged(s)
    ensures Serial(Perform(s, i, op', write)) && Logged(Perform(s, i, op', write))
  {
    var s' := Perform(s, i, op', write);
    LogStep(s, i, op', write);
    ChainStep(s, i, op', write);
    forall u ensures Replay(s'.ops, s'.log, u) == Some(WalletNow(s', u)) { ReplayStep(s, i, op', write, u, ""); }
    forall m ensures ReplayModel(s'.ops, s'.log, m) == Some(ModelNow(s', m)) { ReplayStep(s, i, op', write, "", m); }
  }

  lemma OrderedPerform(s: State, i: nat, op': Op, write: Write)
    requires Ordered(s) && Ready(s, i, op', write)
    ensures var s' := Perform(s, i, op', write); ReadsOk(s') && Solvent(s') && Serial(s') && Logged(s')
  {
    assert ReadOk(s, s.ops[i]);
    assert ItemOfOk(s, s.ops[i]);
    ReadsStep(s, i, op', write);
    SolventStep(s, i, op', write);
    SerialStep(s, i, op', write);
  }

  lemma {:induction false} ReplayLonger(ops: seq<Op>, op: Op, log: seq<Commit>, u: UserId, m: ModelId)
    requires forall k :: 0 <= k < |log| ==> CommitOk(ops, log[k])
    ensures Replay(ops + [op], log, u) == Replay(ops, log, u)
    ensures ReplayModel(ops + [op], log, m) == ReplayModel(ops, log, m)
  {
    if log != [] {
      ReplayLonger(ops, op, log[..|log| - 1], u, m);
      assert CommitOk(ops, log[|log| - 1]);
    }
  }

  lemma SerialBegin(s: State, req: Request)
    requires Serial(s) && Honest(s, req)
    ensures Serial(Step(s, Begin(req)))
  {
    var s' := Step(s, Begin(req));
    var op := NewOp(s.config, req);
    assert s'.ops == s.ops + [op];
    forall k | 0 <= k < |s'.log| ensures CommitOk(s'.ops, s'.log[k]) { assert CommitOk(s.ops, s.log[k]); }
    forall k | 0 <= k < |s'.log| ensures ChainedAt(s'.ops, s'.log, k) {
      assert ChainedAt(s.ops, s.log, k);
      var u := if s.log[k].UserCommit? then s.log[k].user else "";
      ReplayLonger(s.ops, op, s.log[..k], u, if s.log[k].ModelCommit? then s.log[k].model else "");
    }
    forall u ensures Replay(s'.ops, s'.log, u) == Some(WalletNow(s', u)) {
      ReplayLonger(s.ops, op, s.log, u, "");
      assert WalletNow(s', u) == WalletNow(s, u);
    }
    forall m ensures ReplayModel(s'.ops, s'.log, m) == Some(ModelNow(s', m)) {
      ReplayLonger(s.ops, op, s.log, "", m);
      assert ModelNow(s', m) == ModelNow(s, m);
    }
  }

  lemma OrderedBegin(s: State, req: Request)
    requires Ordered(s) && Honest(s, req)
    ensures Ordered(Step(s, Begin(req)))
  {
    var s' := Step(s, Begin(req));
    assert s'.ops == s.ops + [NewOp(s.config, req)];
    CustodyBegin(s, req);
    SerialBegin(s, req);
    forall j | 0 <= j < |s'.ops| ensures ReadOk(s', s'.ops[j]) {
      if j < |s.ops| { assert ReadOk(s, s.ops[j]); }
    }
  }

  lemma OrderedStep(s: State, a: Action)
    requires Ordered(s)
    ensures Ordered(Step(s, a))
  {
    if Enabled(s, a) {
      match a
      case Begin(req) => OrderedBegin(s, req);
      case Run(i, newId, expirable) =>
        StepReady(s, i, newId, expirable);
        var (op', write) := Advance(s, i, newId, expirable);
        CustodyStep(s, a);
        OrderedPerform(s, i, op', write);
    }
  }

  lemma {:induction false} OrderedHolds(cfg: Config, acts: seq<Action>)
    ensures Ordered(Exec(cfg, acts))
  {
    if acts != [] {
      OrderedHolds(cfg, acts[..|acts| - 1]);
      OrderedStep(Exec(cfg, acts[..|acts| - 1]), acts[|acts| - 1]);
    }
  }
}
