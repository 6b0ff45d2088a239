/** What holds in every run of the wallet writers, for every interleaving, every
    number of calls, and calls stopping anywhere. */
module EscrowTheorems {
  import opened Options
  import opened Sums
  import opened EscrowProtocol
  import opened EscrowLocal
  import opened EscrowSteps
  import opened EscrowItems
  import opened EscrowSerial
  import opened EscrowAccounts

  // ------------------------------------------------------------- reachable states

  predicate Follows(states: seq<State>, acts: seq<Action>, k: nat)
    requires |states| == |acts| + 1 && k < |acts|
  {
    states[k + 1] == Step(states[k], acts[k])
  }

  /** A run: the states it passes through and the actions between them. */
  ghost predicate IsRun(states: seq<State>, acts: seq<Action>) {
    && |states| == |acts| + 1 && states[0] == Init(states[0].config)
    && forall k :: 0 <= k < |acts| ==> Follows(states, acts, k)
  }

  lemma RunPrefix(states: seq<State>, acts: seq<Action>, n: nat)
    requires IsRun(states, acts) && n <= |acts|
    ensures IsRun(states[..n + 1], acts[..n])
  {
    var first, prefix := states[..n + 1], acts[..n];
    forall k | 0 <= k < |prefix| ensures Follows(first, prefix, k) {
      assert Follows(states, acts, k);
    }
  }

  lemma RunGrows(states: seq<State>, acts: seq<Action>, a: Action)
    requires IsRun(states, acts)
    ensures IsRun(states + [Step(states[|acts|], a)], acts + [a])
  {
    var longer, more := states + [Step(states[|acts|], a)], acts + [a];
    forall k | 0 <= k < |more| ensures Follows(longer, more, k) {
      if k < |acts| { assert Follows(states, acts, k); }
    }
  }

  /** The actions lead from the empty database to this state. */
  ghost predicate LeadsTo(cfg: Config, acts: seq<Action>, s: State) {
    exists states: seq<State> :: IsRun(states, acts) && states[0].config == cfg && states[|acts|] == s
  }

  ghost predicate Reachable(s: State) {
    exists states: seq<State>, acts: seq<Action> :: IsRun(states, acts) && states[|acts|] == s
  }

  lemma StateIsReachable(states: seq<State>, acts: seq<Action>, k: nat)
    requires IsRun(states, acts) && k <= |acts|
    ensures Reachable(states[k])
  {
    RunPrefix(states, acts, k);
  }

  lemma LeadsIsReachable(cfg: Config, acts: seq<Action>, s: State)
    requires LeadsTo(cfg, acts, s)
    ensures Reachable(s)
  {
    var states: seq<State> :| IsRun(states, acts) && states[0].config == cfg && states[|acts|] == s;
  }

  lemma LeadsOn(cfg: Config, acts: seq<Action>, s: State, a: Action)
    requires LeadsTo(cfg, acts, s)
    ensures LeadsTo(cfg, acts + [a], Step(s, a))
  {
    var states: seq<State> :| IsRun(states, acts) && states[0].config == cfg && states[|acts|] == s;
    RunGrows(states, acts, a);
  }

  lemma LeadsFromNothing(cfg: Config)
    ensures LeadsTo(cfg, [], Init(cfg))
  {
    assert IsRun([Init(cfg)], []);
  }

  lemma {:induction false} RunIsExec(states: seq<State>, acts: seq<Action>)
    requires IsRun(states, acts)
    ensures states[|acts|] == Exec(states[0].config, acts)
    decreases |acts|
  {
    if acts != [] {
      var n := |acts| - 1;
      RunPrefix(states, acts, n);
      assert Follows(states, acts, n);
      RunIsExec(states[..n + 1], acts[..n]);
    }
  }

  /** A reachable state is what its actions compute. */
  lemma ActsTo(s: State) returns (acts: seq<Action>)
    requires Reachable(s)
    ensures s == Exec(s.config, acts)
  {
    var states: seq<State>, trace: seq<Action> :| IsRun(states, trace) && states[|trace|] == s;
    RunIsExec(states, trace);
    RetriesHold(states[0].config, trace);
    acts := trace;
  }

  lemma {:induction false} ExecIsRun(cfg: Config, acts: seq<Action>) returns (states: seq<State>)
    ensures IsRun(states, acts) && states[0].config == cfg && states[|acts|] == Exec(cfg, acts)
    decreases |acts|
  {
    if acts == [] {
      states := [Init(cfg)];
    } else {
      var n := |acts| - 1;
      var before := ExecIsRun(cfg, acts[..n]);
      states := before + [Exec(cfg, acts)];
      RunGrows(before, acts[..n], acts[n]);
      assert acts[..n] + [acts[n]] == acts;
    }
  }

  /** What holds in every reachable state. */
  lemma Invariants(s: State)
    requires Reachable(s)
    ensures Accounted(s) && ReleasesTook(s)
  {
    var acts := ActsTo(s);
    AccountedHolds(s.config, acts);
    ReleasesTookHold(s.config, acts);
  }

  lemma RetriesKept(s: State)
    requires Reachable(s)
    ensures AllRetries(s)
  {
    var acts := ActsTo(s);
    RetriesHold(s.config, acts);
  }

  /** Every sequence of actions computes a reachable state. */
  lemma ExecIsReachable(cfg: Config, acts: seq<Action>)
    ensures Reachable(Exec(cfg, acts))
  {
    var states := ExecIsRun(cfg, acts);
  }

  // ------------------------------------------------------------- serial execution

  /** The committed updates are a serial execution: replaying the committed calls one
      by one, each alone, gives the balances in the database; each call read exactly
      what the commits before it left; each committed update occurs once, and only
      committed calls occur. */
  lemma InterleavingIsSerial(s: State)
    requires Reachable(s)
    ensures forall u :: Replay(s.ops, s.log, u) == Some(WalletNow(s, u))
    ensures forall m :: ReplayModel(s.ops, s.log, m) == Some(ModelNow(s, m))
    ensures Chained(s) && CommitsOk(s) && OncePerCall(s) && Logged(s)
  {
    Invariants(s);
  }

  /** No available and no earned balance is ever negative. */
  lemma NeverNegative(s: State)
    requires Reachable(s)
    ensures forall u :: u in s.wallets ==> s.wallets[u].available >= 0
    ensures forall m :: m in s.models ==> s.models[m].earned >= 0
  {
    Invariants(s);
  }

  // ------------------------------------------------------------------ conservation

  /** All points in the wallets are the issued points plus what settles have credited
      without debiting, minus what partial settles have debited without crediting. */
  lemma Conservation(s: State)
    requires Reachable(s)
    ensures Total(s) == SeqSum(s.ops, Issued()) + SeqSum(s.ops, Floating())
  {
    Invariants(s);
    forall i | 0 <= i < |s.ops| ensures Net()(s.ops[i]) == Issued()(s.ops[i]) + Floating()(s.ops[i]) {
      NetSplits(s.ops[i]);
    }
    SeqSumPlus(s.ops, Issued(), Floating(), Net());
  }

  /** Without a half-done settle or partial settle nothing is created or destroyed. */
  lemma ConservationWhenWhole(s: State)
    requires Reachable(s)
    requires forall i :: 0 <= i < |s.ops| ==> !CreditedOnly(s.ops[i]) && !DebitedOnly(s.ops[i])
    ensures Total(s) == SeqSum(s.ops, Issued())
  {
    Conservation(s);
    SeqSumZero(s.ops, Floating());
  }

  // ---------------------------------------------------------------- escrow backing

  /** A user's escrow balance is the sum of the user's items whose funds are in place,
      less what partial settles took before putting their item back. */
  lemma EscrowIsBacked(s: State, u: UserId)
    requires Reachable(s)
    ensures Balance(s, Escrow(u)) == SetSum(s.escrows.Keys, Backing(s, u)) - SeqSum(s.ops, LostBy(u))
  {
    Invariants(s);
  }

  /** While no partial settle has lost its model wallet, no release ever drives an
      escrow balance below zero, though none of them checks it. */
  lemma EscrowNonNegative(s: State, u: UserId)
    requires Reachable(s)
    requires forall i :: 0 <= i < |s.ops| && Lost(s.ops[i]) ==> s.ops[i].user != u
    ensures Balance(s, Escrow(u)) == SetSum(s.escrows.Keys, Backing(s, u)) >= 0
  {
    EscrowIsBacked(s, u);
    SeqSumZero(s.ops, LostBy(u));
    BackingNonNegative(s, u);
  }

  lemma BackingNonNegative(s: State, u: UserId)
    requires Reachable(s)
    ensures SetSum(s.escrows.Keys, Backing(s, u)) >= 0
  {
    var acts := ActsTo(s);
    CustodyHolds(s.config, acts);
    forall e | e in s.escrows ensures Backing(s, u)(e) >= 0 { assert ItemOk(s, e); }
    SetSumNonNegative(s.escrows.Keys, Backing(s, u));
  }

  /** A release that debited its user took a positive amount. */
  predicate TookSomething(op: Op) { IsRelease(op.req) && op.userDone ==> EscrowDelta(op.req) < 0 }

  ghost predicate ReleasesTook(s: State) { forall i :: 0 <= i < |s.ops| ==> TookSomething(s.ops[i]) }

  lemma TookOnCommit(s: State, i: nat, op': Op, write: Write)
    requires Custody(s) && Ready(s, i, op', write) && TookSomething(s.ops[i])
    ensures TookSomething(op')
  {
    assert CallOk(s, i);
    if s.ops[i].item.Some? && s.ops[i].item.value in s.escrows {
      assert ItemOk(s, s.ops[i].item.value);
    }
  }

  lemma TookKept(s: State, i: nat, op': Op, write: Write)
    requires i < |s.ops| && ReleasesTook(s) && TookSomething(op')
    ensures ReleasesTook(Perform(s, i, op', write))
  {
    assert Perform(s, i, op', write).ops == s.ops[i := op'];
  }

  lemma ReleasesTookStep(s: State, a: Action)
    requires Custody(s) && ReleasesTook(s)
    ensures ReleasesTook(Step(s, a))
  {
    if Enabled(s, a) && a.Run? {
      StepReady(s, a.i, a.newId, a.expirable);
      var (op', write) := Advance(s, a.i, a.newId, a.expirable);
      TookOnCommit(s, a.i, op', write);
      TookKept(s, a.i, op', write);
    }
  }

  lemma {:induction false} ReleasesTookHold(cfg: Config, acts: seq<Action>)
    ensures ReleasesTook(Exec(cfg, acts))
  {
    if acts != [] {
      var n := |acts| - 1;
      ReleasesTookHold(cfg, acts[..n]);
      CustodyHolds(cfg, acts[..n]);
      ReleasesTookStep(Exec(cfg, acts[..n]), acts[n]);
    }
  }

  predicate HasLost(s: State, u: UserId) { exists i :: 0 <= i < |s.ops| && Lost(s.ops[i]) && s.ops[i].user == u }

  lemma LostWeight(op: Op, u: UserId)
    requires TookSomething(op)
    ensures LostBy(u)(op) >= 0
    ensures LostBy(u)(op) > 0 <==> Lost(op) && op.user == u
  {
  }

  lemma SumOfLost(s: State, u: UserId)
    requires ReleasesTook(s)
    ensures SeqSum(s.ops, LostBy(u)) >= 0
    ensures SeqSum(s.ops, LostBy(u)) > 0 <==> HasLost(s, u)
  {
    forall i | 0 <= i < |s.ops|
      ensures LostBy(u)(s.ops[i]) >= 0 && (LostBy(u)(s.ops[i]) > 0 <==> Lost(s.ops[i]) && s.ops[i].user == u)
    {
      LostWeight(s.ops[i], u);
    }
    SeqSumNonNegative(s.ops, LostBy(u));
    if HasLost(s, u) {
      var i :| 0 <= i < |s.ops| && Lost(s.ops[i]) && s.ops[i].user == u;
      SeqSumPositive(s.ops, i, LostBy(u));
    } else {
      SeqSumZero(s.ops, LostBy(u));
    }
  }

  lemma LostIsPositive(s: State, u: UserId)
    requires Reachable(s)
    ensures SeqSum(s.ops, LostBy(u)) >= 0
    ensures SeqSum(s.ops, LostBy(u)) > 0 <==> HasLost(s, u)
  {
    Invariants(s);
    SumOfLost(s, u);
  }

  /** The exact condition for an escrow balance to fall short of the items it backs: some
      partial settle of that user has lost its model wallet. When all the user's items
      have been released by then, the balance is negative. */
  lemma UnderbackedExactly(s: State, u: UserId)
    requires Reachable(s)
    ensures Balance(s, Escrow(u)) < SetSum(s.escrows.Keys, Backing(s, u)) <==> HasLost(s, u)
    ensures (forall e :: e in s.escrows && s.escrows[e].user == u ==> Final(s.escrows[e].status)) ==>
              (Balance(s, Escrow(u)) < 0 <==> HasLost(s, u))
  {
    EscrowIsBacked(s, u);
    LostIsPositive(s, u);
    if forall e :: e in s.escrows && s.escrows[e].user == u ==> Final(s.escrows[e].status) {
      NothingBacked(s, u);
    }
  }

  lemma NothingBacked(s: State, u: UserId)
    requires forall e :: e in s.escrows && s.escrows[e].user == u ==> Final(s.escrows[e].status)
    ensures SetSum(s.escrows.Keys, Backing(s, u)) == 0
  {
    SetSumZero(s.escrows.Keys, Backing(s, u));
  }

  // ------------------------------------------------------------------------ ledger

  /** Balances and ledger differ by exactly the committed changes the ledger does not
      show, for every kind of account and with no assumption on keys. */
  lemma WalletAndLedger(s: State, a: Account)
    requires Reachable(s)
    ensures Balance(s, a) == LedgerSum(s, a) + SeqSum(s.ops, MissingFrom(a))
  {
    Invariants(s);
    forall i | 0 <= i < |s.ops|
      ensures AppliedTo(a)(s.ops[i]) == WrittenTo(a)(s.ops[i]) + MissingFrom(a)(s.ops[i])
    {
      AppliedSplits(s.ops[i], a);
    }
    SeqSumPlus(s.ops, WrittenTo(a), MissingFrom(a), AppliedTo(a));
  }

  /** A committed change whose entry the call has still to write. */
  function UnwrittenTo(a: Account): Op -> int {
    (op: Op) => if FateFor(op, a) == Pending then Applied(op, a) else 0
  }

  lemma MissingIsUnwritten(op: Op, a: Account)
    requires Local(op) && op.first != Duplicate && op.second != Duplicate && !a.Escrow?
    ensures MissingFrom(a)(op) == UnwrittenTo(a)(op)
    ensures op.pc == Done ==> UnwrittenTo(a)(op) == 0
  {
  }

  lemma ThrewHalfway(op: Op, a: Account)
    requires Local(op) && Threw(op.pc) && Applied(op, a) != 0
    ensures CreditedOnly(op) || DebitedOnly(op) || op.pc == EntryRefused
  {
  }

  /** With distinct ledger keys only calls that have committed and not written their entry
      separate an available or earned balance from the ledger: running or stopped ones, and
      of those that have ended only ones that lost their second wallet or whose entry the
      ledger refused. Calls that have returned do not. */
  lemma WalletAndLedgerDistinct(s: State, a: Account)
    requires Reachable(s)
    requires !a.Escrow? && DistinctKeys(s.ops)
    ensures Balance(s, a) == LedgerSum(s, a) + SeqSum(s.ops, UnwrittenTo(a))
    ensures forall i :: 0 <= i < |s.ops| && s.ops[i].pc == Done ==> UnwrittenTo(a)(s.ops[i]) == 0
    ensures forall i :: 0 <= i < |s.ops| && Threw(s.ops[i].pc) && UnwrittenTo(a)(s.ops[i]) != 0 ==>
              CreditedOnly(s.ops[i]) || DebitedOnly(s.ops[i]) || s.ops[i].pc == EntryRefused
  {
    Invariants(s);
    WalletAndLedger(s, a);
    forall i | 0 <= i < |s.ops|
      ensures MissingFrom(a)(s.ops[i]) == UnwrittenTo(a)(s.ops[i])
      ensures s.ops[i].pc == Done ==> UnwrittenTo(a)(s.ops[i]) == 0
      ensures Threw(s.ops[i].pc) && UnwrittenTo(a)(s.ops[i]) != 0 ==>
                CreditedOnly(s.ops[i]) || DebitedOnly(s.ops[i]) || s.ops[i].pc == EntryRefused
    {
      MissingIsUnwritten(s.ops[i], a);
      if Threw(s.ops[i].pc) && Applied(s.ops[i], a) != 0 {
        ThrewHalfway(s.ops[i], a);
      }
    }
    SeqSumAgree(s.ops, MissingFrom(a), UnwrittenTo(a));
  }

  // ------------------------------------------------------------ escrow state machine

  /** How one action may change an item: whose it is, its amount, queue item and maker
      never change; a final item stays as it is; an item in an intermediate status is
      changed by its owner alone and not removed; a held item is removed by the hold that
      made it alone, and is taken into an intermediate status by the call that then owns it. */
  predicate MovesRightly(before: Item, after: Option<Item>, a: Action) {
    && (Final(before.status) ==> after == Some(before))
    && (Busy(before.status) ==>
          && after.Some? && before.owner.Some?
          && (after.value != before ==> a.Run? && a.i == before.owner.value))
    && (before.status == Held && after.Some? && after.value.status != Held ==>
          Busy(after.value.status) && a.Run? && after.value.owner == Some(a.i))
    && (before.status == Held && after.None? ==> a.Run? && a.i == before.maker)
    && (after.Some? ==> after.value == before.(status := after.value.status, owner := after.value.owner))
  }

  function ItemIn(s: State, e: EscrowId): Option<Item> { if e in s.escrows then Some(s.escrows[e]) else None }

  /** In every reachable state each action moves each item rightly: 'settled' and
      'refunded' are absorbing, only its owner moves an item on, and only the hold that made
      a held item removes it. */
  lemma StatusMoves(s: State, a: Action, e: EscrowId)
    requires Reachable(s) && e in s.escrows
    ensures MovesRightly(s.escrows[e], ItemIn(Step(s, a), e), a)
  {
    Invariants(s);
    assert ItemOk(s, e);
    if Enabled(s, a) && a.Run? {
      StepReady(s, a.i, a.newId, a.expirable);
      var (op', write) := Advance(s, a.i, a.newId, a.expirable);
      MovesItem(s, a, op', write, e);
    } else {
      assert Step(s, a).escrows == s.escrows;
    }
  }

  lemma MovesItem(s: State, a: Action, op': Op, write: Write, e: EscrowId)
    requires a.Run? && Ready(s, a.i, op', write) && e in s.escrows && ItemOk(s, e)
    ensures MovesRightly(s.escrows[e], ItemIn(Perform(s, a.i, op', write), e), a)
  {
  }

  /** Once final, an item is the same for the rest of the run. */
  lemma {:induction false} FinalForever(states: seq<State>, acts: seq<Action>, p: nat, q: nat, e: EscrowId)
    requires IsRun(states, acts) && p <= q <= |acts|
    requires e in states[p].escrows && Final(states[p].escrows[e].status)
    ensures e in states[q].escrows && states[q].escrows[e] == states[p].escrows[e]
    decreases q
  {
    if p < q {
      FinalForever(states, acts, p, q - 1, e);
      StateIsReachable(states, acts, q - 1);
      assert Follows(states, acts, q - 1);
      StatusMoves(states[q - 1], acts[q - 1], e);
    }
  }

  /** In every run an item in an intermediate status has exactly one owner, every other
      item has none, and a queue item has at most one escrow item. */
  lemma OneOwner(s: State, e: EscrowId)
    requires Reachable(s) && e in s.escrows
    ensures Busy(s.escrows[e].status) <==> exists i :: 0 <= i < |s.ops| && Owns(s.ops[i]) && s.ops[i].item == Some(e)
    ensures forall i, j | 0 <= i < |s.ops| && 0 <= j < |s.ops| && Owns(s.ops[i]) && Owns(s.ops[j])
                          && s.ops[i].item == Some(e) == s.ops[j].item :: i == j
    ensures forall d :: d in s.escrows && s.escrows[d].queueItem == s.escrows[e].queueItem ==> d == e
  {
    Invariants(s);
    assert ItemOk(s, e);
    forall i | 0 <= i < |s.ops| && Owns(s.ops[i]) && s.ops[i].item == Some(e) ensures s.escrows[e].owner == Some(i) {
      assert CallOk(s, i);
    }
  }

  // ------------------------------------------------------------ claimed at most once

  /** Something other than the claims and the calls' own progress changed. */
  predicate Touched(s: State, s': State) {
    s'.wallets != s.wallets || s'.models != s.models || s'.escrows != s.escrows || s'.ledger != s.ledger
  }

  /** An escrow call that changes anything has won its claim. */
  lemma TouchNeedsClaim(s: State, a: Action)
    requires Reachable(s) && Touched(s, Step(s, a))
    ensures a.Run? && a.i < |s.ops| && (IsEscrow(s.ops[a.i].req) ==> Active(s.ops[a.i]))
  {
    Invariants(s);
    TouchIsActive(s, a);
  }

  lemma TouchIsActive(s: State, a: Action)
    requires Custody(s) && Touched(s, Step(s, a))
    ensures a.Run? && a.i < |s.ops| && (IsEscrow(s.ops[a.i].req) ==> Active(s.ops[a.i]))
  {
    if a.Run? && Enabled(s, a) {
      StepReady(s, a.i, a.newId, a.expirable);
    }
  }

  lemma ActiveStep(s: State, a: Action, i: nat)
    requires Custody(s) && i < |s.ops| && Active(s.ops[i])
    ensures var s' := Step(s, a); i < |s'.ops| && Active(s'.ops[i]) && s'.ops[i].req == s.ops[i].req
  {
    if Enabled(s, a) && a.Run? {
      StepReady(s, a.i, a.newId, a.expirable);
      var (op', write) := Advance(s, a.i, a.newId, a.expirable);
      ActivePerform(s, a.i, op', write, i);
    }
  }

  lemma ActivePerform(s: State, j: nat, op': Op, write: Write, i: nat)
    requires Ready(s, j, op', write) && i < |s.ops| && Active(s.ops[i])
    ensures var s' := Perform(s, j, op', write); i < |s'.ops| && Active(s'.ops[i]) && s'.ops[i].req == s.ops[i].req
  {
    assert Perform(s, j, op', write).ops == s.ops[j := op'];
    StaysActive(s, j, op', write);
  }

  lemma StaysActive(s: State, i: nat, op': Op, write: Write)
    requires Ready(s, i, op', write)
    ensures Active(s.ops[i]) ==> Active(op')
    ensures op'.req == s.ops[i].req
  {
  }

  lemma ActiveNext(s: State, a: Action, i: nat)
    requires Reachable(s) && i < |s.ops| && Active(s.ops[i])
    ensures var s' := Step(s, a); i < |s'.ops| && Active(s'.ops[i]) && s'.ops[i].req == s.ops[i].req
  {
    Invariants(s);
    ActiveStep(s, a, i);
  }

  lemma ActiveAt(states: seq<State>, acts: seq<Action>, k: nat, i: nat)
    requires IsRun(states, acts) && k < |acts| && i < |states[k].ops| && Active(states[k].ops[i])
    ensures i < |states[k + 1].ops| && Active(states[k + 1].ops[i]) && states[k + 1].ops[i].req == states[k].ops[i].req
  {
    StateIsReachable(states, acts, k);
    assert Follows(states, acts, k);
    ActiveNext(states[k], acts[k], i);
  }

  lemma {:induction false} ActiveForever(states: seq<State>, acts: seq<Action>, p: nat, q: nat, i: nat)
    requires IsRun(states, acts) && p <= q <= |acts| && i < |states[p].ops| && Active(states[p].ops[i])
    ensures i < |states[q].ops| && Active(states[q].ops[i]) && states[q].ops[i].req == states[p].ops[i].req
    decreases q
  {
    if p < q {
      ActiveForever(states, acts, p, q - 1, i);
      ActiveAt(states, acts, q - 1, i);
    }
  }

  /** In every run, among all escrow calls with one key and scope, at most one ever changes
      a wallet, a model wallet, an escrow item or the ledger. */
  lemma ClaimActsOnce(states: seq<State>, acts: seq<Action>, p: nat, q: nat)
    requires IsRun(states, acts) && p <= q < |acts|
    requires Touched(states[p], states[p + 1]) && Touched(states[q], states[q + 1])
    requires acts[p].Run? && acts[q].Run? && acts[p].i < |states[p].ops| && acts[q].i < |states[q].ops|
    requires var r, t := states[p].ops[acts[p].i].req, states[q].ops[acts[q].i].req;
             IsEscrow(r) && IsEscrow(t) && ClaimOf(r) == ClaimOf(t)
    ensures acts[p].i == acts[q].i
  {
    StateIsReachable(states, acts, p);
    StateIsReachable(states, acts, q);
    assert Follows(states, acts, p) && Follows(states, acts, q);
    TouchNeedsClaim(states[p], acts[p]);
    TouchNeedsClaim(states[q], acts[q]);
    ActiveForever(states, acts, p, q, acts[p].i);
    OneActive(states[q], acts[p].i, acts[q].i);
  }

  lemma OneActive(s: State, i: nat, j: nat)
    requires Reachable(s) && i < |s.ops| && j < |s.ops| && Active(s.ops[i]) && Active(s.ops[j])
    requires ClaimOf(s.ops[i].req) == ClaimOf(s.ops[j].req)
    ensures i == j
  {
    Invariants(s);
  }

  // ------------------------------------------------------------------ bounded retry

  lemma AllRetriesStep(s: State, a: Action)
    requires AllLocal(s) && AllRetries(s)
    ensures AllRetries(Step(s, a)) && Step(s, a).config == s.config
  {
    if Enabled(s, a) {
      match a
      case Begin(req) =>
      case Run(i, newId, expirable) =>
        RetriesStep(s, i, newId, expirable);
        var (op', write) := Advance(s, i, newId, expirable);
        RetriesPerform(s, i, op', write);
    }
  }

  lemma RetriesPerform(s: State, i: nat, op': Op, write: Write)
    requires i < |s.ops| && AllRetries(s) && Retries(s.config, op')
    ensures AllRetries(Perform(s, i, op', write)) && Perform(s, i, op', write).config == s.config
  {
    assert Perform(s, i, op', write).ops == s.ops[i := op'];
  }

  lemma {:induction false} RetriesHold(cfg: Config, acts: seq<Action>)
    ensures AllRetries(Exec(cfg, acts)) && Exec(cfg, acts).config == cfg
  {
    if acts != [] {
      var n := |acts| - 1;
      RetriesHold(cfg, acts[..n]);
      CustodyHolds(cfg, acts[..n]);
      AllRetriesStep(Exec(cfg, acts[..n]), acts[n]);
    }
  }

  /** A hold runs at most `maxAttempts` times under any interference and sleeps at most
      the geometric sum of its back-offs. */
  lemma HoldIsBounded(s: State, i: nat)
    requires Reachable(s)
    requires i < |s.ops| && s.ops[i].req.Hold? && s.config.maxAttempts > 0
    ensures var op := s.ops[i];
            && op.attempts + 1 <= s.config.maxAttempts
            && op.slept <= s.config.backoffMs * (Pow2(s.config.maxAttempts) - 2)
  {
    RetriesKept(s);
    HoldBound(s.config, s.ops[i]);
  }

  /** It has slept exactly for the doubling back-offs of its retries. */
  lemma HoldSleeps(s: State, i: nat)
    requires Reachable(s) && i < |s.ops| && s.ops[i].req.Hold?
    ensures s.ops[i].slept == s.config.backoffMs * (Pow2(s.ops[i].attempts + 1) - 2)
  {
    RetriesKept(s);
    assert Retries(s.config, s.ops[i]);
    BackoffIsPower(s.config.backoffMs, s.ops[i].attempts + 1);
  }

  /** An award or deduction likewise. */
  lemma DirectSleeps(s: State, i: nat)
    requires Reachable(s) && i < |s.ops| && (s.ops[i].req.Award? || s.ops[i].req.Deduct?)
    ensures s.ops[i].slept == s.config.backoffMs * (Pow2(s.ops[i].attempts) - 1)
  {
    RetriesKept(s);
    assert Retries(s.config, s.ops[i]);
    BackoffIsPower(s.config.backoffMs, s.ops[i].attempts);
  }

  lemma HoldBound(cfg: Config, op: Op)
    requires Retries(cfg, op) && op.req.Hold? && cfg.maxAttempts > 0
    ensures op.attempts + 1 <= cfg.maxAttempts && op.slept <= cfg.backoffMs * (Pow2(cfg.maxAttempts) - 2)
  {
    BackoffGrows(cfg.backoffMs, op.attempts + 1, cfg.maxAttempts);
    BackoffIsPower(cfg.backoffMs, cfg.maxAttempts);
  }

  /** A call that has committed nothing has changed no balance and written no entry. */
  lemma NothingApplied(op: Op)
    requires Local(op) && !op.userDone && !op.modelDone
    ensures forall a :: Applied(op, a) == 0 && WrittenTo(a)(op) == 0
  {
  }

  /** The call has changed no balance, written no entry and left no item of its own. */
  ghost predicate LeftNothing(s: State, i: nat) {
    && i < |s.ops|
    && (forall a :: Applied(s.ops[i], a) == 0 && WrittenTo(a)(s.ops[i]) == 0)
    && (forall e :: e in s.escrows ==> s.escrows[e].maker != i)
  }

  /** A call that never committed has left nothing, unless it is a hold with its item in place. */
  lemma Uncommitted(s: State, i: nat)
    requires Reachable(s) && i < |s.ops| && !s.ops[i].userDone && !s.ops[i].modelDone && !Makes(s.ops[i])
    ensures LeftNothing(s, i)
  {
    Invariants(s);
    NothingApplied(s.ops[i]);
    forall e | e in s.escrows ensures s.escrows[e].maker != i { assert ItemOk(s, e); }
  }

  /** A hold or a direct writer that has committed has moved its user's available points. */
  lemma HasMoved(op: Op)
    requires Local(op) && op.userDone && !IsRelease(op.req)
    ensures Applied(op, Available(op.user)) != 0
  {
  }

  /** What became of a call, other than a release, that threw. */
  lemma FailsCleanly(s: State, i: nat)
    requires Reachable(s) && i < |s.ops| && !IsRelease(s.ops[i].req) && Threw(s.ops[i].pc)
    ensures LeftNothing(s, i) <==> !s.ops[i].userDone
    ensures s.ops[i].userDone <==> s.ops[i].pc == EntryRefused
    ensures s.ops[i].userDone ==> Refuses(s.ops[i].req)
  {
    Invariants(s);
    assert Local(s.ops[i]);
    if s.ops[i].userDone {
      HasMoved(s.ops[i]);
    } else {
      Uncommitted(s, i);
    }
  }

  /** A hold that threw, or that lost its claim, leaves nothing of its own - no balance
      change, no ledger entry, no escrow item - if and only if it is not one that committed
      with entries the ledger refuses. */
  lemma HoldFailsCleanly(s: State, i: nat)
    requires Reachable(s) && i < |s.ops| && s.ops[i].req.Hold? && Threw(s.ops[i].pc)
    ensures LeftNothing(s, i) <==> !(s.ops[i].userDone && s.ops[i].req.refused)
    ensures s.ops[i].userDone <==> s.ops[i].pc == EntryRefused
  {
    FailsCleanly(s, i);
  }

  /** An award or deduction retries at most `maxAttempts` times. */
  lemma DirectIsBounded(s: State, i: nat)
    requires Reachable(s)
    requires i < |s.ops|
    requires s.ops[i].req.Award? || s.ops[i].req.Deduct?
    ensures var op := s.ops[i];
            && op.attempts <= s.config.maxAttempts
            && op.slept <= s.config.backoffMs * (Pow2(s.config.maxAttempts) - 1)
  {
    RetriesKept(s);
    DirectBound(s.config, s.ops[i]);
  }

  lemma DirectBound(cfg: Config, op: Op)
    requires Retries(cfg, op) && (op.req.Award? || op.req.Deduct?)
    ensures op.attempts <= cfg.maxAttempts && op.slept <= cfg.backoffMs * (Pow2(cfg.maxAttempts) - 1)
  {
    BackoffGrows(cfg.backoffMs, op.attempts, cfg.maxAttempts);
    BackoffIsPower(cfg.backoffMs, cfg.maxAttempts);
  }

  /** A direct writer that threw has changed nothing if and only if it is not one that
      committed with an entry the ledger refuses. */
  lemma DirectFailsCleanly(s: State, i: nat)
    requires Reachable(s) && i < |s.ops| && !IsEscrow(s.ops[i].req) && Threw(s.ops[i].pc)
    ensures LeftNothing(s, i) <==> !(s.ops[i].userDone && Refuses(s.ops[i].req))
    ensures s.ops[i].userDone <==> s.ops[i].pc == EntryRefused
  {
    FailsCleanly(s, i);
  }
}
