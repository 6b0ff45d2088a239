/** Concrete runs that reach the states the theorems warn about: a negative escrow balance
    after a lost partial settle, a settle that ended with the model credited and the user
    never debited, releases stuck with their item locked, and a hold whose entries were
    refused. */
module EscrowExamples {
  import opened Options
  import opened EscrowProtocol
  import opened EscrowSteps
  import opened EscrowAccounts
  import opened EscrowTheorems
  import opened EscrowCompletes
  import opened EscrowStuck

  // ------------------------------------------------------------------ the two runs

  const CFG := Config(1, 0, 100)

  /** One user is given 20 points and puts 10 in escrow twice. */
  const FUNDING := [Begin(Award("u", 20, "a", false)), Run(0, "", 0), Run(0, "", 0), Run(0, "", 0)]
  const HOLD_ONE := Hold("u", 10, "q1", "h1", false)
  const HOLD_TWO := Hold("u", 10, "q2", "h2", false)
  const HOLDING := HoldActs(1, HOLD_ONE, "e1") + HoldActs(2, HOLD_TWO, "e2")

  /** A partial settle of the first item stops after it has debited the user. */
  const PARTIAL := Partial("e1", "u", "m", 0, 10, "p", false)
  const DEBITING := [Begin(PARTIAL), Run(3, "", 0), Run(3, "", 0), Run(3, "", 0), Run(3, "", 0), Run(3, "", 0), Run(3, "", 0)]

  /** A settle of the second item credits the same model. */
  const SETTLE := Settle("e2", "m", 10, "s", false)
  const CREDITING := [Begin(SETTLE), Run(4, "", 0), Run(4, "", 0), Run(4, "", 0), Run(4, "", 0)]

  /** The partial settle loses the model wallet and puts its item back. */
  const LOSING := [Run(3, "", 0), Run(3, "", 0)]

  /** The first item is refunded, and the settle debits the user. */
  const REFUND := Refund("e1", "u", 10, "r", false)
  const REFUNDING := [Begin(REFUND), Run(5, "", 0), Run(5, "", 0), Run(5, "", 0), Run(5, "", 0)]
  const SETTLING := [Run(4, "", 0), Run(4, "", 0)]

  /** An award commits between the settle's read and its update of the user wallet. */
  const INTERFERING := [Run(4, "", 0), Begin(Award("u", 1, "b", false)), Run(5, "", 0), Run(5, "", 0), Run(4, "", 0),
                        Run(4, "", 0)]

  predicate Funded(s: State) {
    && s.config == CFG && s.wallets == map["u" := Wallet(20, 0, 1)] && s.models == map[] && s.escrows == map[]
    && s.claims == {} && |s.ops| == 1 && s.ops[0].item == None
  }

  predicate Untouched(s: State) {
    s.config == CFG && s.wallets == map[] && s.models == map[] && s.escrows == map[] && s.claims == {} && s.ops == []
  }

  /** From any reachable state an award to a user without a wallet creates it and commits. */
  lemma AwardCommits(cfg: Config, past: seq<Action>, s: State, req: Request) returns (s': State)
    requires LeadsTo(cfg, past, s) && req.Award? && Admissible(s.config, req) && req.user !in s.wallets
    ensures var i := |s.ops|;
            LeadsTo(cfg, past + [Begin(req)] + [Run(i, "", 0)] + [Run(i, "", 0)] + [Run(i, "", 0)], s')
    ensures s' == s.(ops := s'.ops, wallets := s.wallets[req.user := Wallet(req.amount, 0, 1)], log := s'.log)
    ensures |s'.ops| == |s.ops| + 1 && s'.ops[|s.ops|].item == None
  {
    var i := |s.ops|;
    var s0 := Begins(cfg, past, s, req);
    var s1 := FindsNoUser(cfg, past + [Begin(req)], s0, i);
    var s2 := CreatesWallet(cfg, past + [Begin(req)] + [Run(i, "", 0)], s1, i);
    s' := WinsUser(cfg, past + [Begin(req)] + [Run(i, "", 0)] + [Run(i, "", 0)], s2, i);
  }

  /** From any reachable state an award that is not disturbed commits. */
  lemma AwardAdds(cfg: Config, past: seq<Action>, s: State, req: Request) returns (s': State)
    requires LeadsTo(cfg, past, s) && req.Award? && Admissible(s.config, req) && req.user in s.wallets
    ensures LeadsTo(cfg, past + [Begin(req)] + [Run(|s.ops|, "", 0)] + [Run(|s.ops|, "", 0)], s')
    ensures var w := s.wallets[req.user];
            s' == s.(ops := s'.ops, log := s'.log,
                     wallets := s.wallets[req.user := Wallet(w.available + req.amount, w.escrow, w.version + 1)])
    ensures |s'.ops| == |s.ops| + 1 && s'.ops[..|s.ops|] == s.ops
  {
    var i := |s.ops|;
    var s0 := Begins(cfg, past, s, req);
    var s1 := ReadsUser(cfg, past + [Begin(req)], s0, i);
    s' := WinsUser(cfg, past + [Begin(req)] + [Run(i, "", 0)], s1, i);
  }

  lemma Funds(past: seq<Action>, s: State) returns (s': State)
    requires LeadsTo(CFG, past, s) && Untouched(s)
    ensures LeadsTo(CFG, past + FUNDING, s') && Funded(s')
  {
    s' := AwardCommits(CFG, past, s, Award("u", 20, "a", false));
    assert past + [Begin(Award("u", 20, "a", false))] + [Run(0, "", 0)] + [Run(0, "", 0)] + [Run(0, "", 0)] == past + FUNDING;
  }

  const ITEM_ONE := Item("u", 10, "q1", Held, 1, None)
  const ITEM_TWO := Item("u", 10, "q2", Held, 2, None)

  predicate HoldsDone(s: State) { |s.ops| >= 3 && s.ops[1].pc == Done && s.ops[2].pc == Done }

  predicate TwoHeld(s: State) {
    && s.config == CFG && s.wallets == map["u" := Wallet(0, 20, 3)] && s.models == map[]
    && s.escrows == map["e1" := ITEM_ONE, "e2" := ITEM_TWO]
    && s.claims == {(HoldScope, "h1"), (HoldScope, "h2")} && |s.ops| == 3 && HoldsDone(s)
  }

  lemma HoldsOne(cfg: Config, past: seq<Action>, s: State, req: Request, e: EscrowId) returns (s': State)
    requires LeadsTo(cfg, past, s) && HoldPossible(s, req, e) && !req.refused
    ensures LeadsTo(cfg, past + HoldActs(|s.ops|, req, e), s')
    ensures Holding(s, s', req, e) && s'.ops[|s.ops|].pc == Done
  {
    s' := HoldCompletes(cfg, past, s, req, e);
  }

  lemma Holds(past: seq<Action>, s: State) returns (s': State)
    requires LeadsTo(CFG, past, s) && Funded(s)
    ensures LeadsTo(CFG, past + HOLDING, s') && TwoHeld(s')
  {
    var s1 := HoldsOne(CFG, past, s, HOLD_ONE, "e1");
    var first := HoldActs(1, HOLD_ONE, "e1");
    assert s1.ops[0] == s.ops[0];
    s' := HoldsOne(CFG, past + first, s1, HOLD_TWO, "e2");
    assert s'.ops[1] == s1.ops[1];
    assert past + first + HoldActs(2, HOLD_TWO, "e2") == past + HOLDING;
  }

  predicate Debiting(s: State) {
    && s.config == CFG && s.wallets == map["u" := Wallet(0, 10, 4)] && s.models == map["m" := ModelWallet(0, 0)]
    && s.escrows == map["e1" := ITEM_ONE.(status := PartialSettling, owner := Some(3)), "e2" := ITEM_TWO]
    && s.claims == {(HoldScope, "h1"), (HoldScope, "h2"), (PartialScope, "p")} && |s.ops| == 4 && HoldsDone(s)
    && s.ops[3].req == PARTIAL && s.ops[3].pc == CasModel && s.ops[3].seenModel == ModelWallet(0, 0)
    && s.ops[3].user == "u" && s.ops[3].item == Some("e1") && s.ops[3].userDone && !s.ops[3].modelDone
  }

  lemma Debits(past: seq<Action>, s: State) returns (s': State)
    requires LeadsTo(CFG, past, s) && TwoHeld(s)
    ensures LeadsTo(CFG, past + DEBITING, s') && Debiting(s')
  {
    var s1 := LockCompletes(CFG, past, s, PARTIAL);
    var p1 := past + [Begin(PARTIAL), Run(3, "", 0), Run(3, "", 0)];
    var s2 := ReadsUser(CFG, p1, s1, 3);
    var s3 := CreatesModelWallet(CFG, p1 + [Run(3, "", 0)], s2, 3);
    var p3 := p1 + [Run(3, "", 0)] + [Run(3, "", 0)] + [Run(3, "", 0)];
    s' := WinsUser(CFG, p3, s3, 3);
    assert p3 + [Run(3, "", 0)] == past + DEBITING;
  }

  predicate Crediting(s: State) {
    && s.config == CFG && s.wallets == map["u" := Wallet(0, 10, 4)] && s.models == map["m" := ModelWallet(10, 1)]
    && "e1" in s.escrows && s.escrows["e1"] == ITEM_ONE.(status := PartialSettling, owner := Some(3))
    && "e2" in s.escrows && (RefundScope, "r") !in s.claims
    && |s.ops| == 5 && HoldsDone(s)
    && s.ops[3].req == PARTIAL && s.ops[3].pc == CasModel && s.ops[3].seenModel == ModelWallet(0, 0)
    && s.ops[3].user == "u" && s.ops[3].item == Some("e1") && s.ops[3].userDone && !s.ops[3].modelDone
    && s.ops[4].req == SETTLE && s.ops[4].pc == ReadUser && s.ops[4].user == "u" && s.ops[4].item == Some("e2")
    && s.ops[4].modelDone && !s.ops[4].userDone
  }

  lemma Credits(past: seq<Action>, s: State) returns (s': State)
    requires LeadsTo(CFG, past, s) && Debiting(s)
    ensures LeadsTo(CFG, past + CREDITING, s') && Crediting(s')
  {
    var s2 := LockCompletes(CFG, past, s, SETTLE);
    var p2 := past + [Begin(SETTLE), Run(4, "", 0), Run(4, "", 0)];
    var s3 := ReadsModel(CFG, p2, s2, 4);
    s' := WinsModel(CFG, p2 + [Run(4, "", 0)], s3, 4);
    assert p2 + [Run(4, "", 0)] + [Run(4, "", 0)] == past + CREDITING;
  }

  /** The settle stops between its two updates; the partial settle has lost. */
  predicate Losing(s: State) {
    && s.config == CFG && s.wallets == map["u" := Wallet(0, 10, 4)]
    && "e1" in s.escrows && s.escrows["e1"] == ITEM_ONE && (RefundScope, "r") !in s.claims
    && |s.ops| == 5 && HoldsDone(s) && Lost(s.ops[3]) && s.ops[3].user == "u"
    && s.ops[4].req == SETTLE && s.ops[4].pc == ReadUser && s.ops[4].user == "u"
  }

  lemma Loses(past: seq<Action>, s: State) returns (s': State)
    requires LeadsTo(CFG, past, s) && Crediting(s)
    ensures LeadsTo(CFG, past + LOSING, s') && Losing(s')
  {
    var s1 := LosesModel(CFG, past, s, 3);
    s' := PutsBack(CFG, past + [Run(3, "", 0)], s1, 3, "e1");
    assert past + [Run(3, "", 0)] + [Run(3, "", 0)] == past + LOSING;
  }

  predicate Refunding(s: State) {
    && s.config == CFG && s.wallets == map["u" := Wallet(10, 0, 5)] && |s.ops| == 6
    && Lost(s.ops[3]) && s.ops[3].user == "u"
    && s.ops[4].req == SETTLE && s.ops[4].pc == ReadUser && s.ops[4].user == "u"
  }

  lemma Refunds(past: seq<Action>, s: State) returns (s': State)
    requires LeadsTo(CFG, past, s) && Losing(s)
    ensures LeadsTo(CFG, past + REFUNDING, s') && Refunding(s')
  {
    var s1 := LockCompletes(CFG, past, s, REFUND);
    var p1 := past + [Begin(REFUND), Run(5, "", 0), Run(5, "", 0)];
    var s2 := ReadsUser(CFG, p1, s1, 5);
    s' := WinsUser(CFG, p1 + [Run(5, "", 0)], s2, 5);
    assert p1 + [Run(5, "", 0)] + [Run(5, "", 0)] == past + REFUNDING;
  }

  lemma HeldReached() returns (s: State)
    ensures LeadsTo(CFG, FUNDING + HOLDING, s) && TwoHeld(s)
  {
    LeadsFromNothing(CFG);
    var s1 := Funds([], Init(CFG));
    assert [] + FUNDING == FUNDING;
    s := Holds(FUNDING, s1);
  }

  lemma CreditingReached() returns (s: State)
    ensures LeadsTo(CFG, FUNDING + HOLDING + DEBITING + CREDITING, s) && Crediting(s)
  {
    var s2 := HeldReached();
    var s3 := Debits(FUNDING + HOLDING, s2);
    s := Credits(FUNDING + HOLDING + DEBITING, s3);
  }

  /** A run that ends with a lost partial settle and an escrow balance of -10. */
  lemma NegativeEscrowReached() returns (s: State)
    ensures LeadsTo(CFG, FUNDING + HOLDING + DEBITING + CREDITING + LOSING + REFUNDING + SETTLING, s)
    ensures HasLost(s, "u") && Balance(s, Escrow("u")) == -10
  {
    var s4 := CreditingReached();
    var p4 := FUNDING + HOLDING + DEBITING + CREDITING;
    var s5 := Loses(p4, s4);
    var s6 := Refunds(p4 + LOSING, s5);
    var p6 := p4 + LOSING + REFUNDING;
    var s7 := ReadsUser(CFG, p6, s6, 4);
    s := WinsUser(CFG, p6 + [Run(4, "", 0)], s7, 4);
    assert p6 + [Run(4, "", 0)] + [Run(4, "", 0)] == p6 + SETTLING;
    assert s.ops[3] == s6.ops[3];
  }

  /** The settle has read the user's wallet and is about to update it. */
  predicate Reread(s: State) {
    && s.config == CFG && "e2" in s.escrows && |s.ops| == 5 && s.ops[4].req == SETTLE
    && s.ops[4].pc == CasUser && s.ops[4].modelDone && !s.ops[4].userDone && s.ops[4].user == "u"
    && s.ops[4].item == Some("e2") && "u" in s.wallets && s.wallets["u"] == s.ops[4].seen
  }

  lemma Rereads(past: seq<Action>, s: State) returns (s': State)
    requires LeadsTo(CFG, past, s) && Crediting(s)
    ensures LeadsTo(CFG, past + [Run(4, "", 0)], s') && Reread(s')
  {
    s' := ReadsUser(CFG, past, s, 4);
  }

  predicate Interfered(s: State) {
    && s.config == CFG && "e2" in s.escrows && |s.ops| == 6 && s.ops[4].req == SETTLE
    && s.ops[4].pc == CasUser && s.ops[4].modelDone && !s.ops[4].userDone && s.ops[4].user == "u"
    && s.ops[4].item == Some("e2") && "u" in s.wallets && s.wallets["u"].version != s.ops[4].seen.version
  }

  lemma Interferes(past: seq<Action>, s: State) returns (s': State)
    requires LeadsTo(CFG, past, s) && Reread(s)
    ensures LeadsTo(CFG, past + INTERFERING[1..4], s') && Interfered(s')
  {
    var award := Award("u", 1, "b", false);
    s' := AwardAdds(CFG, past, s, award);
    assert s'.ops[4] == s.ops[4];
    assert past + [Begin(award)] + [Run(5, "", 0)] + [Run(5, "", 0)] == past + INTERFERING[1..4];
  }

  /** A run in which a settle ends with the model credited, the user not debited, and the
      item held again, to be settled once more. */
  lemma CreditedOnlyReached() returns (s: State)
    ensures LeadsTo(CFG, FUNDING + HOLDING + DEBITING + CREDITING + INTERFERING, s)
    ensures |s.ops| == 6 && CreditedOnly(s.ops[4]) && s.ops[4].pc == Failed
    ensures "e2" in s.escrows && s.escrows["e2"].status == Held
  {
    var s4 := CreditingReached();
    var p4 := FUNDING + HOLDING + DEBITING + CREDITING;
    var s0 := Rereads(p4, s4);
    var s5 := Interferes(p4 + [Run(4, "", 0)], s0);
    var p5 := p4 + [Run(4, "", 0)] + INTERFERING[1..4];
    var s6 := LosesUser(CFG, p5, s5, 4);
    s := PutsBack(CFG, p5 + [Run(4, "", 0)], s6, 4, "e2");
    assert p5 + [Run(4, "", 0)] + [Run(4, "", 0)] == p4 + INTERFERING;
  }

  // ------------------------------------------------------------------ stuck releases

  /** A partial settle whose parts sum to half of its item. */
  const SHORT := Partial("e1", "u", "m", 0, 5, "p", false)

  /** A run in which a partial settle with wrong parts is stuck, its item locked. */
  lemma StuckPartialReached() returns (s: State)
    ensures LeadsTo(CFG, FUNDING + HOLDING + [Begin(SHORT), Run(3, "", 0), Run(3, "", 0)], s)
    ensures |s.ops| == 4 && s.ops[3].pc == Stuck && Locked(s, 3)
  {
    var p := FUNDING + HOLDING;
    var s0 := HeldReached();
    var s1 := Begins(CFG, p, s0, SHORT);
    var s2 := TakesClaim(CFG, p + [Begin(SHORT)], s1, 3);
    var (op', write) := LockStep(s2, 3, s2.ops[3]);
    s := Runs(CFG, p + [Begin(SHORT)] + [Run(3, "", 0)], s2, 3, "", op', write);
    assert p + [Begin(SHORT)] + [Run(3, "", 0)] + [Run(3, "", 0)] == p + [Begin(SHORT), Run(3, "", 0), Run(3, "", 0)];
  }

  /** Two settles read the new model wallet before either updates it. */
  const FIRST_SETTLE := Settle("e1", "m", 10, "t", false)
  const READING := [Begin(FIRST_SETTLE), Run(3, "", 0), Run(3, "", 0), Run(3, "", 0), Run(3, "", 0)]

  predicate Reading(s: State) {
    && s.config == CFG && s.models == map["m" := NEW_MODEL_WALLET] && HoldsDone(s) && |s.ops| == 4
    && (SettleScope, "s") !in s.claims && "e2" in s.escrows && s.escrows["e2"] == ITEM_TWO
    && "e1" in s.escrows && s.escrows["e1"].status == Settling && s.escrows["e1"].owner == Some(3)
    && s.ops[3].req == FIRST_SETTLE && s.ops[3].pc == CasModel && s.ops[3].item == Some("e1")
    && s.ops[3].seenModel == NEW_MODEL_WALLET
  }

  lemma Reads(past: seq<Action>, s: State) returns (s': State)
    requires LeadsTo(CFG, past, s) && TwoHeld(s)
    ensures LeadsTo(CFG, past + READING, s') && Reading(s')
  {
    var s1 := LockCompletes(CFG, past, s, FIRST_SETTLE);
    var p1 := past + [Begin(FIRST_SETTLE), Run(3, "", 0), Run(3, "", 0)];
    s' := CreatesModelWallet(CFG, p1, s1, 3);
    assert p1 + [Run(3, "", 0)] + [Run(3, "", 0)] == past + READING;
  }

  predicate Overtaken(s: State) {
    && s.config == CFG && "m" in s.models && s.models["m"].version == 1 && |s.ops| == 5
    && "e1" in s.escrows && s.escrows["e1"].status == Settling && s.escrows["e1"].owner == Some(3)
    && s.ops[3].req == FIRST_SETTLE && s.ops[3].pc == CasModel && s.ops[3].item == Some("e1")
    && s.ops[3].seenModel == NEW_MODEL_WALLET
  }

  lemma Overtakes(past: seq<Action>, s: State) returns (s': State)
    requires LeadsTo(CFG, past, s) && Reading(s)
    ensures LeadsTo(CFG, past + CREDITING, s') && Overtaken(s')
  {
    var s1 := LockCompletes(CFG, past, s, SETTLE);
    var p1 := past + [Begin(SETTLE), Run(4, "", 0), Run(4, "", 0)];
    var s2 := ReadsModel(CFG, p1, s1, 4);
    s' := WinsModel(CFG, p1 + [Run(4, "", 0)], s2, 4);
    assert p1 + [Run(4, "", 0)] + [Run(4, "", 0)] == past + CREDITING;
  }

  /** A run in which a settle loses the model wallet and is stuck, its item locked. */
  lemma StuckSettleReached() returns (s: State)
    ensures LeadsTo(CFG, FUNDING + HOLDING + READING + CREDITING + [Run(3, "", 0)], s)
    ensures |s.ops| == 5 && s.ops[3].pc == Stuck && Locked(s, 3)
  {
    var s0 := HeldReached();
    var s1 := Reads(FUNDING + HOLDING, s0);
    var s2 := Overtakes(FUNDING + HOLDING + READING, s1);
    var (op', write) := CasModelStep(s2, s2.ops[3]);
    s := Runs(CFG, FUNDING + HOLDING + READING + CREDITING, s2, 3, "", op', write);
  }

  // ------------------------------------------------------------------ a refused hold

  /** A hold whose metadata holds an email address. */
  const REFUSED_HOLD := Hold("u", 10, "q1", "h1", true)
  const REFUSING := [Begin(REFUSED_HOLD), Run(1, "", 0), Run(1, "", 0), Run(1, "e1", 0), Run(1, "", 0), Run(1, "", 0)]

  lemma RefusesEntry(cfg: Config, past: seq<Action>, s: State, i: nat) returns (s': State)
    requires LeadsTo(cfg, past, s) && i < |s.ops| && s.ops[i].req.Hold? && s.ops[i].req.refused
    requires s.ops[i].req.amount > 0 && s.ops[i].pc == WriteFirst
    ensures LeadsTo(cfg, past + [Run(i, "", 0)], s')
    ensures s' == s.(ops := s.ops[i := s.ops[i].(pc := EntryRefused)])
  {
    var (op', write) := WriteFirstStep(s, s.ops[i]);
    s' := Runs(cfg, past, s, i, "", op', write);
  }

  /** A run in which a hold commits and is refused its entries: 10 points are in escrow, in
      an item whose id no caller has. */
  lemma RefusedHoldReached() returns (s: State)
    ensures LeadsTo(CFG, FUNDING + REFUSING, s)
    ensures |s.ops| == 2 && s.ops[1].pc == EntryRefused && s.ops[1].userDone
    ensures "u" in s.wallets && s.wallets["u"] == Wallet(10, 10, 2)
    ensures "e1" in s.escrows && s.escrows["e1"] == Item("u", 10, "q1", Held, 1, None)
  {
    LeadsFromNothing(CFG);
    var s0 := Funds([], Init(CFG));
    assert [] + FUNDING == FUNDING;
    var s1 := CommitsToRefuse(FUNDING, s0);
    s := RefusesEntry(CFG, FUNDING + REFUSING[..5], s1, 1);
    assert FUNDING + REFUSING[..5] + [Run(1, "", 0)] == FUNDING + REFUSING;
  }

  lemma CommitsToRefuse(past: seq<Action>, s: State) returns (s': State)
    requires LeadsTo(CFG, past, s) && Funded(s)
    ensures LeadsTo(CFG, past + REFUSING[..5], s')
    ensures Holding(s, s', REFUSED_HOLD, "e1") && s'.ops[1].pc == WriteFirst && s'.ops[1].userDone
  {
    var s1 := HoldReads(CFG, past, s, REFUSED_HOLD, "e1");
    var p1 := past + [Begin(REFUSED_HOLD)] + [Run(1, "", 0)] + [Run(1, "", 0)];
    s' := HoldCommits(CFG, p1, s, s1, REFUSED_HOLD, "e1");
    assert p1 + [Run(1, "e1", 0)] + [Run(1, "", 0)] == past + REFUSING[..5];
  }
}
