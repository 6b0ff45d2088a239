/** What a ledger entry says: the balances of an update that was really committed. */
module EscrowEntries {
  import opened EscrowProtocol
  import opened EscrowLocal
  import opened EscrowItems
  import opened EscrowSerial
  import opened EscrowTheorems

  /** The call has written this entry. */
  predicate Wrote(op: Op, e: Entry) {
    (op.first == Written && e == FirstEntry(op)) || (HasSecond(op.req) && op.second == Written && e == SecondEntry(op))
  }

  ghost predicate Authored(ops: seq<Op>, e: Entry) { exists i :: 0 <= i < |ops| && Wrote(ops[i], e) }

  ghost predicate AllAuthored(s: State) { forall k :: 0 <= k < |s.ledger| ==> Authored(s.ops, s.ledger[k]) }

  /** A call's entries do not change once they are written. */
  lemma WroteKept(s: State, i: nat, op': Op, write: Write, e: Entry)
    requires Ready(s, i, op', write) && Wrote(s.ops[i], e)
    ensures Wrote(op', e)
  {
  }

  lemma WroteNew(s: State, i: nat, op': Op, write: Write)
    requires Ready(s, i, op', write) && write.AddEntry?
    ensures Wrote(op', write.entry)
  {
  }

  lemma AuthoredPerform(s: State, i: nat, op': Op, write: Write)
    requires Ready(s, i, op', write) && AllAuthored(s)
    ensures AllAuthored(Perform(s, i, op', write))
  {
    var s' := Perform(s, i, op', write);
    assert s'.ops == s.ops[i := op'];
    forall k | 0 <= k < |s'.ledger| ensures Authored(s'.ops, s'.ledger[k]) {
      if k < |s.ledger| {
        assert Authored(s.ops, s.ledger[k]);
        var j :| 0 <= j < |s.ops| && Wrote(s.ops[j], s.ledger[k]);
        if j == i { WroteKept(s, i, op', write, s.ledger[k]); }
        assert Wrote(s'.ops[j], s'.ledger[k]);
      } else {
        WroteNew(s, i, op', write);
        assert Wrote(s'.ops[i], s'.ledger[k]);
      }
    }
  }

  lemma AuthoredStep(s: State, a: Action)
    requires Custody(s) && AllAuthored(s)
    ensures AllAuthored(Step(s, a))
  {
    if Enabled(s, a) {
      match a
      case Begin(req) =>
        var s' := Step(s, a);
        forall k | 0 <= k < |s'.ledger| ensures Authored(s'.ops, s'.ledger[k]) {
          assert Authored(s.ops, s.ledger[k]);
          var j :| 0 <= j < |s.ops| && Wrote(s.ops[j], s.ledger[k]);
          assert s'.ops[j] == s.ops[j];
        }
      case Run(i, newId, expirable) =>
        StepReady(s, i, newId, expirable);
        var (op', write) := Advance(s, i, newId, expirable);
        AuthoredPerform(s, i, op', write);
    }
  }

  lemma {:induction false} AuthoredHolds(cfg: Config, acts: seq<Action>)
    ensures AllAuthored(Exec(cfg, acts))
  {
    if acts != [] {
      var n := |acts| - 1;
      AuthoredHolds(cfg, acts[..n]);
      CustodyHolds(cfg, acts[..n]);
      AuthoredStep(Exec(cfg, acts[..n]), acts[n]);
    }
  }

  /** The entry records the update: its account, and the balance before and after. */
  predicate Records(e: Entry, c: Commit) {
    && e.after == e.before + e.amount
    && match e.account
       case Available(u) => c.UserCommit? && c.user == u && e.before == c.before.available && e.after == c.after.available
       case Escrow(u) => c.UserCommit? && c.user == u && e.before == c.before.escrow && e.after == c.after.escrow
       case Earned(m) => c.ModelCommit? && c.model == m && e.before == c.earlier.earned && e.after == c.later.earned
  }

  lemma UserEntryRecords(ops: seq<Op>, e: Entry, c: Commit)
    requires c.UserCommit? && CommitOk(ops, c) && Wrote(ops[c.call], e) && !e.account.Earned?
    ensures Records(e, c)
  {
  }

  lemma ModelEntryRecords(ops: seq<Op>, e: Entry, c: Commit)
    requires c.ModelCommit? && CommitOk(ops, c) && Wrote(ops[c.call], e) && e.account.Earned?
    ensures Records(e, c)
  {
  }

  lemma AuthorIsDone(op: Op, e: Entry)
    requires Local(op) && Wrote(op, e)
    ensures op.userDone && (e.account.Earned? ==> op.modelDone)
  {
  }

  /** The commit behind an entry: the model's for an earned balance, else the user's. */
  lemma AuthorCommitted(s: State, i: nat, e: Entry) returns (n: nat)
    requires CommitsOk(s) && Logged(s) && i < |s.ops| && Local(s.ops[i]) && Wrote(s.ops[i], e)
    ensures n < |s.log| && s.log[n].call == i && Records(e, s.log[n])
  {
    AuthorIsDone(s.ops[i], e);
    if e.account.Earned? {
      n :| 0 <= n < |s.log| && s.log[n].ModelCommit? && s.log[n].call == i;
      ModelEntryRecords(s.ops, e, s.log[n]);
    } else {
      n :| 0 <= n < |s.log| && s.log[n].UserCommit? && s.log[n].call == i;
      UserEntryRecords(s.ops, e, s.log[n]);
    }
  }

  /** In every reachable state each ledger entry shows, before and after, the true balances
      of its account around one committed update. */
  lemma EntriesRecordCommits(s: State, k: nat)
    requires Reachable(s) && k < |s.ledger|
    ensures exists n :: 0 <= n < |s.log| && Records(s.ledger[k], s.log[n])
  {
    Invariants(s);
    var acts := ActsTo(s);
    AuthoredHolds(s.config, acts);
    assert Authored(s.ops, s.ledger[k]);
    var i :| 0 <= i < |s.ops| && Wrote(s.ops[i], s.ledger[k]);
    assert Local(s.ops[i]);
    var n := AuthorCommitted(s, i, s.ledger[k]);
  }
}
