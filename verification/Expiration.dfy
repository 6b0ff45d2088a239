/** Point expiration, run serially: the debit of one user's expired credits, the batch
    over many users, and the warning list. */
module Expiration {
  import opened Accounts
  import opened Ledger
  import Metadata
  import opened Options
  import opened Sums
  import EscrowProtocol

  type Wallet = EscrowProtocol.Wallet

  const QUERY_LIMIT: nat := 100

  /** A calendar day as the service writes it, for instance 2024-01-31. */
  type Day = d: string | |d| == 10 witness "2024-01-31"

  /** The clock and the calendar day when one user is handled. */
  datatype Moment = Moment(now: int, day: Day)

  /** What the service finds in the database. `expiry` holds the expiry date in an entry's
      metadata, by the entry's key. */
  datatype World = World(wallets: map<string, Wallet>, entries: seq<Entry>, expiry: map<string, int>)

  datatype Expiry = NothingDue | NoWallet | Debited(amount: int)

  datatype BatchResult = BatchResult(usersProcessed: nat, totalPointsExpired: int, successCount: nat,
                                     failureCount: nat, errors: seq<string>)

  datatype Warning = Warning(user: string, amount: int, expiresAt: int)

  // ------------------------------------------------------------------------- queries

  /** Credits to available balances, of one account or of all. */
  datatype Filter = Filter(account: Option<string>, accountType: Option<AccountType>)

  predicate Matches(e: Entry, f: Filter) {
    && e.kind == Credit && e.state == Available
    && (f.account.Some? ==> e.account == f.account.value)
    && (f.accountType.Some? ==> e.accountType == f.accountType.value)
  }

  /** The matching entries, newest first, cut off at the page limit. */
  function Newest(es: seq<Entry>, f: Filter, limit: nat): (found: seq<Entry>)
    ensures |found| <= limit
    ensures forall k :: 0 <= k < |found| ==> found[k] in es && Matches(found[k], f)
  {
    if es == [] || limit == 0 then []
    else
      var n := |es| - 1;
      if Matches(es[n], f) then [es[n]] + Newest(es[..n], f, limit - 1) else Newest(es[..n], f, limit)
  }

  /** All matching entries, newest first. */
  function Matching(es: seq<Entry>, f: Filter): seq<Entry> {
    if es == [] then []
    else
      var n := |es| - 1;
      if Matches(es[n], f) then [es[n]] + Matching(es[..n], f) else Matching(es[..n], f)
  }

  function Page(m: seq<Entry>, limit: nat): seq<Entry> { if |m| <= limit then m else m[..limit] }

  /** What the page leaves out. */
  function Unseen(m: seq<Entry>, limit: nat): seq<Entry> { if |m| <= limit then [] else m[limit..] }

  /** The list holds each credit to an available balance, of the account and account type
      asked for where one is asked for, as often as the ledger does, and no other entry. */
  lemma {:induction false} MatchingIsAll(es: seq<Entry>, f: Filter, e: Entry)
    ensures multiset(Matching(es, f))[e] ==
              if e.kind == Credit && e.state == Available
                 && (f.account == None || f.account == Some(e.account))
                 && (f.accountType == None || f.accountType == Some(e.accountType))
              then multiset(es)[e] else 0
  {
    if es != [] {
      var n := |es| - 1;
      MatchingIsAll(es[..n], f, e);
      assert es == es[..n] + [es[n]];
    }
  }

  /** The query returns exactly the newest `limit` matching entries, or all of them when
      there are no more. */
  lemma {:induction false} NewestIsPage(es: seq<Entry>, f: Filter, limit: nat)
    ensures Newest(es, f, limit) == Page(Matching(es, f), limit)
  {
    if es != [] && limit > 0 {
      var n := |es| - 1;
      NewestIsPage(es[..n], f, if Matches(es[n], f) then limit - 1 else limit);
    }
  }

  /** Every matching entry is returned if and only if they fit the page. */
  lemma NewestIsAll(es: seq<Entry>, f: Filter, limit: nat)
    ensures Newest(es, f, limit) == Matching(es, f) <==> |Matching(es, f)| <= limit
  {
    NewestIsPage(es, f, limit);
  }

  lemma NewestOfOne(es: seq<Entry>, e: Entry, f: Filter, limit: nat)
    requires limit > 0
    ensures Newest(es + [e], f, limit) == if Matches(e, f) then [e] + Newest(es, f, limit - 1) else Newest(es, f, limit)
  {
    assert (es + [e])[..|es|] == es;
  }

  /** Once the recent entries fill a page, older credits are never seen. */
  lemma {:induction false} OlderCreditsUnseen(older: seq<Entry>, recent: seq<Entry>, f: Filter, limit: nat)
    requires |Newest(recent, f, limit)| == limit
    ensures Newest(older + recent, f, limit) == Newest(recent, f, limit)
  {
    if recent != [] && limit > 0 {
      var before, e := recent[..|recent| - 1], recent[|recent| - 1];
      assert older + recent == (older + before) + [e] && recent == before + [e];
      NewestOfOne(older + before, e, f, limit);
      NewestOfOne(before, e, f, limit);
      OlderCreditsUnseen(older, before, f, if Matches(e, f) then limit - 1 else limit);
    }
  }

  /** The sum of the found entries that expired at or before the cutoff. */
  function ExpiredIn(found: seq<Entry>, expiry: map<string, int>, cutoff: int): int {
    if found == [] then 0
    else
      var e := found[|found| - 1];
      ExpiredIn(found[..|found| - 1], expiry, cutoff)
      + if e.key in expiry && expiry[e.key] <= cutoff then e.amount else 0
  }

  /** The user's credits that expired at or before the cutoff, over the whole ledger. */
  function ExpiredOf(es: seq<Entry>, expiry: map<string, int>, f: Filter, cutoff: int): int {
    if es == [] then 0
    else
      var e := es[|es| - 1];
      ExpiredOf(es[..|es| - 1], expiry, f, cutoff)
      + if Matches(e, f) && e.key in expiry && expiry[e.key] <= cutoff then e.amount else 0
  }

  lemma {:induction false} ExpiredInBoth(a: seq<Entry>, b: seq<Entry>, expiry: map<string, int>, cutoff: int)
    ensures ExpiredIn(a + b, expiry, cutoff) == ExpiredIn(a, expiry, cutoff) + ExpiredIn(b, expiry, cutoff)
  {
    if b == [] {
      assert a + b == a;
    } else {
      var n := |b| - 1;
      ExpiredInBoth(a, b[..n], expiry, cutoff);
      assert (a + b)[..|a + b| - 1] == a + b[..n];
    }
  }

  lemma {:induction false} ExpiredOfIsMatching(es: seq<Entry>, expiry: map<string, int>, f: Filter, cutoff: int)
    ensures ExpiredOf(es, expiry, f, cutoff) == ExpiredIn(Matching(es, f), expiry, cutoff)
  {
    if es != [] {
      var n := |es| - 1;
      ExpiredOfIsMatching(es[..n], expiry, f, cutoff);
      if Matches(es[n], f) {
        ExpiredInBoth([es[n]], Matching(es[..n], f), expiry, cutoff);
      }
    }
  }

  predicate SomeExpired(found: seq<Entry>, expiry: map<string, int>, cutoff: int) {
    exists k :: 0 <= k < |found| && found[k].key in expiry && expiry[found[k].key] <= cutoff
  }

  ghost predicate AllPositive(found: seq<Entry>) { forall k :: 0 <= k < |found| ==> found[k].amount > 0 }

  lemma {:induction false} ExpiredPositive(found: seq<Entry>, expiry: map<string, int>, cutoff: int)
    requires AllPositive(found)
    ensures ExpiredIn(found, expiry, cutoff) >= 0
    ensures ExpiredIn(found, expiry, cutoff) == 0 <==> !SomeExpired(found, expiry, cutoff)
  {
    if found != [] {
      var n := |found| - 1;
      ExpiredPositive(found[..n], expiry, cutoff);
      if SomeExpired(found[..n], expiry, cutoff) {
        var k :| 0 <= k < n && found[..n][k].key in expiry && expiry[found[..n][k].key] <= cutoff;
        assert found[k] == found[..n][k];
      }
      if SomeExpired(found, expiry, cutoff) && !SomeExpired(found[..n], expiry, cutoff) {
        var k :| 0 <= k < |found| && found[k].key in expiry && expiry[found[k].key] <= cutoff;
        assert k < n ==> found[..n][k] == found[k];
      }
    }
  }

  function Due(w: World, grace: int, user: string, m: Moment): int {
    ExpiredIn(Newest(w.entries, Filter(Some(user), Some(User)), QUERY_LIMIT), w.expiry, m.now - grace)
  }

  /** What is due is all that has expired, less the expired credits beyond the page; with
      positive amounts it is all that has expired if and only if no credit beyond the page
      has expired. */
  lemma DueExactly(w: World, grace: int, user: string, m: Moment)
    ensures var f := Filter(Some(user), Some(User));
            var unseen := Unseen(Matching(w.entries, f), QUERY_LIMIT);
            var all := ExpiredOf(w.entries, w.expiry, f, m.now - grace);
            && Due(w, grace, user, m) == all - ExpiredIn(unseen, w.expiry, m.now - grace)
            && (AllPositive(unseen) ==>
                  (Due(w, grace, user, m) == all <==> !SomeExpired(unseen, w.expiry, m.now - grace)))
  {
    var f := Filter(Some(user), Some(User));
    var all := Matching(w.entries, f);
    NewestIsPage(w.entries, f, QUERY_LIMIT);
    ExpiredOfIsMatching(w.entries, w.expiry, f, m.now - grace);
    assert all == Page(all, QUERY_LIMIT) + Unseen(all, QUERY_LIMIT);
    ExpiredInBoth(Page(all, QUERY_LIMIT), Unseen(all, QUERY_LIMIT), w.expiry, m.now - grace);
    if AllPositive(Unseen(all, QUERY_LIMIT)) {
      ExpiredPositive(Unseen(all, QUERY_LIMIT), w.expiry, m.now - grace);
    }
  }

  /** The entry is a credit to the user's available balance. */
  predicate CreditOf(e: Entry, user: string) {
    e.kind == Credit && e.state == Available && e.account == user && e.accountType == User
  }

  /** An entry that is no credit to the user's available balance changes nothing. */
  lemma DueUnaffected(w: World, e: Entry, grace: int, user: string, m: Moment)
    requires !CreditOf(e, user)
    ensures Due(w.(entries := w.entries + [e]), grace, user, m) == Due(w, grace, user, m)
  {
    NewestOfOne(w.entries, e, Filter(Some(user), Some(User)), QUERY_LIMIT);
  }

  /** While the page has room, a credit to the user's available balance adds its amount to
      what is due exactly when it has a date that is past by the grace period. */
  lemma DueGrows(w: World, e: Entry, grace: int, user: string, m: Moment)
    requires CreditOf(e, user) && |Matching(w.entries, Filter(Some(user), Some(User)))| < QUERY_LIMIT
    ensures Due(w.(entries := w.entries + [e]), grace, user, m) == Due(w, grace, user, m)
              + if e.key in w.expiry && w.expiry[e.key] + grace <= m.now then e.amount else 0
  {
    FoundGrows(w.entries, e, Filter(Some(user), Some(User)), w.expiry, m.now - grace);
  }

  lemma FoundGrows(es: seq<Entry>, e: Entry, f: Filter, expiry: map<string, int>, cutoff: int)
    requires Matches(e, f) && |Matching(es, f)| < QUERY_LIMIT
    ensures ExpiredIn(Newest(es + [e], f, QUERY_LIMIT), expiry, cutoff)
            == ExpiredIn(Newest(es, f, QUERY_LIMIT), expiry, cutoff)
               + if e.key in expiry && expiry[e.key] <= cutoff then e.amount else 0
  {
    NewestOfOne(es, e, f, QUERY_LIMIT);
    NewestIsPage(es, f, QUERY_LIMIT - 1);
    NewestIsPage(es, f, QUERY_LIMIT);
    ExpiredInBoth([e], Matching(es, f), expiry, cutoff);
    ExpiredInOne(e, expiry, cutoff);
  }

  lemma ExpiredInOne(e: Entry, expiry: map<string, int>, cutoff: int)
    ensures ExpiredIn([e], expiry, cutoff) == if e.key in expiry && expiry[e.key] <= cutoff then e.amount else 0
  {
    assert [e][..0] == [];
  }

  // ------------------------------------------------------------------------- one user

  function Min(a: int, b: int): int { if a < b then a else b }

  function Max(a: int, b: int): int { if a < b then b else a }

  function ExpiryKey(user: string, day: Day): string { "expiration-" + user + "-" + day }

  /** The debit of an amount due, down to an empty wallet at most. */
  function Withdrawn(w: World, user: string, total: int, m: Moment): (Expiry, World) {
    if user !in w.wallets then (NoWallet, w)
    else
      var wallet := w.wallets[user];
      var amount := Min(total, wallet.available);
      if amount <= 0 then (NothingDue, w)
      else
        (Debited(amount),
         w.(wallets := w.wallets[user := wallet.(available := wallet.available - amount, version := wallet.version + 1)],
            entries := Append(w.entries, Entry(user, User, Available, Debit, -amount, wallet.available,
                                               wallet.available - amount, ExpiryKey(user, m.day), m.now))))
  }

  function ExpireUser(w: World, grace: int, user: string, m: Moment): (Expiry, World) {
    var total := Due(w, grace, user, m);
    if total == 0 then (NothingDue, w) else Withdrawn(w, user, total, m)
  }

  /** The credits of other accounts are never due: a user without an entry loses nothing. */
  lemma OthersAreNotDue(w: World, grace: int, user: string, m: Moment)
    requires forall k :: 0 <= k < |w.entries| ==> w.entries[k].account != user
    ensures Due(w, grace, user, m) == 0 && ExpireUser(w, grace, user, m) == (NothingDue, w)
  {
    NoEntryFound(w.entries, user, QUERY_LIMIT);
  }

  lemma {:induction false} NoEntryFound(es: seq<Entry>, user: string, limit: nat)
    requires forall k :: 0 <= k < |es| ==> es[k].account != user
    ensures Newest(es, Filter(Some(user), Some(User)), limit) == []
  {
    if es != [] && limit > 0 {
      NoEntryFound(es[..|es| - 1], user, limit);
    }
  }

  /** When a user is debited, by how much, and what the debit leaves. */
  lemma ExpiresExactly(w: World, grace: int, user: string, m: Moment)
    ensures var (due, (r, w')) := (Due(w, grace, user, m), ExpireUser(w, grace, user, m));
            && (r == NoWallet <==> due != 0 && user !in w.wallets)
            && (r.Debited? <==> user in w.wallets && due > 0 && w.wallets[user].available > 0)
            && (!r.Debited? ==> w' == w)
            && (r.Debited? ==>
                  var before := w.wallets[user];
                  && (r.amount == due || r.amount == before.available) && r.amount <= due && r.amount <= before.available
                  && w'.wallets == w.wallets[user := EscrowProtocol.Wallet(before.available - r.amount, before.escrow,
                                                                           before.version + 1)]
                  && w'.expiry == w.expiry
                  && w'.entries == if KeyUsed(w.entries, "expiration-" + user + "-" + m.day) then w.entries
                                   else w.entries + [Entry(user, User, Available, Debit, -r.amount, before.available,
                                                           before.available - r.amount,
                                                           "expiration-" + user + "-" + m.day, m.now)])
  {
  }

  ghost predicate Ascending(clock: seq<Moment>) {
    forall i, j :: 0 <= i < j < |clock| ==> clock[i].now <= clock[j].now
  }

  function Counted(r: BatchResult, user: string, outcome: Expiry): BatchResult {
    match outcome
    case NoWallet => r.(failureCount := r.failureCount + 1, errors := r.errors + [user])
    case NothingDue => r.(usersProcessed := r.usersProcessed + 1)
    case Debited(amount) =>
      r.(usersProcessed := r.usersProcessed + 1, successCount := r.successCount + 1,
         totalPointsExpired := r.totalPointsExpired + amount)
  }

  /** The world and the result after a prefix of the users, `clock` giving each its moment. */
  function RunUsers(w: World, grace: int, users: seq<string>, clock: seq<Moment>): (World, BatchResult)
    requires |clock| == |users|
  {
    if users == [] then (w, BatchResult(0, 0, 0, 0, []))
    else
      var n := |users| - 1;
      var (before, r) := RunUsers(w, grace, users[..n], clock[..n]);
      var (outcome, after) := ExpireUser(before, grace, users[n], clock[n]);
      (after, Counted(r, users[n], outcome))
  }

  // ---------------------------------------------------------------- what a batch does

  function Points(wallets: map<string, Wallet>): string -> int {
    u => if u in wallets then wallets[u].available else 0
  }

  ghost function TotalAvailable(w: World): int { SetSum(w.wallets.Keys, Points(w.wallets)) }

  /** The listed users whose expiry throws, judged on the world before the batch. */
  function Missing(w: World, grace: int, users: seq<string>, clock: seq<Moment>): seq<string>
    requires |clock| == |users|
  {
    if users == [] then []
    else
      var n := |users| - 1;
      Missing(w, grace, users[..n], clock[..n])
      + if users[n] !in w.wallets && Due(w, grace, users[n], clock[n]) != 0 then [users[n]] else []
  }

  /** What one user owes over all the places where the list names the user, judged on the
      world before the batch. */
  function Owed(w: World, grace: int, users: seq<string>, clock: seq<Moment>, user: string): int
    requires |clock| == |users|
  {
    if users == [] then 0
    else
      var n := |users| - 1;
      Owed(w, grace, users[..n], clock[..n], user)
      + if users[n] == user then Due(w, grace, user, clock[n]) else 0
  }

  lemma {:induction false} ExpiredNonNegative(found: seq<Entry>, expiry: map<string, int>, cutoff: int)
    requires forall k :: 0 <= k < |found| ==> found[k].amount >= 0
    ensures ExpiredIn(found, expiry, cutoff) >= 0
  {
    if found != [] {
      ExpiredNonNegative(found[..|found| - 1], expiry, cutoff);
    }
  }

  lemma DueNonNegative(w: World, grace: int, user: string, m: Moment)
    requires AllWellFormed(w.entries)
    ensures Due(w, grace, user, m) >= 0
  {
    var found := Newest(w.entries, Filter(Some(user), Some(User)), QUERY_LIMIT);
    forall k | 0 <= k < |found| ensures found[k].amount >= 0 {
      var j :| 0 <= j < |w.entries| && w.entries[j] == found[k];
      assert WellFormed(w.entries[j]);
    }
    ExpiredNonNegative(found, w.expiry, m.now - grace);
  }

  /** Nothing marks a credit as expired: an expiry leaves every amount due as it was. */
  lemma DueUnchanged(w: World, grace: int, user: string, m: Moment, other: string, later: Moment)
    ensures var w' := ExpireUser(w, grace, user, m).1;
            Due(w', grace, other, later) == Due(w, grace, other, later) && w'.expiry == w.expiry
  {
    var w' := ExpireUser(w, grace, user, m).1;
    if w'.entries != w.entries {
      assert w'.entries[..|w.entries|] == w.entries;
    }
  }

  lemma {:induction false} BatchDueUnchanged(w: World, grace: int, users: seq<string>, clock: seq<Moment>,
                                             other: string, later: Moment)
    requires |clock| == |users|
    ensures Due(RunUsers(w, grace, users, clock).0, grace, other, later) == Due(w, grace, other, later)
  {
    if users != [] {
      var n := |users| - 1;
      BatchDueUnchanged(w, grace, users[..n], clock[..n], other, later);
      DueUnchanged(RunUsers(w, grace, users[..n], clock[..n]).0, grace, users[n], clock[n], other, later);
    }
  }

  /** Every listed user is counted once; the errors are exactly the listed users that owe
      something and have no wallet, in list order. */
  lemma {:induction false} BatchCounts(w: World, grace: int, users: seq<string>, clock: seq<Moment>)
    requires |clock| == |users|
    ensures var (w', r) := RunUsers(w, grace, users, clock);
            && w'.wallets.Keys == w.wallets.Keys
            && r.usersProcessed + r.failureCount == |users|
            && r.failureCount == |r.errors| && r.errors == Missing(w, grace, users, clock)
  {
    if users != [] {
      var n := |users| - 1;
      BatchCounts(w, grace, users[..n], clock[..n]);
      BatchDueUnchanged(w, grace, users[..n], clock[..n], users[n], clock[n]);
    }
  }

  /** The drop in the total of available points is the reported total. */
  lemma {:induction false} BatchConserves(w: World, grace: int, users: seq<string>, clock: seq<Moment>)
    requires |clock| == |users|
    ensures var (w', r) := RunUsers(w, grace, users, clock);
            TotalAvailable(w) - TotalAvailable(w') == r.totalPointsExpired >= r.successCount
  {
    if users != [] {
      var n := |users| - 1;
      BatchConserves(w, grace, users[..n], clock[..n]);
      var before := RunUsers(w, grace, users[..n], clock[..n]).0;
      var after := RunUsers(w, grace, users, clock).0;
      if ExpireUser(before, grace, users[n], clock[n]).0.Debited? {
        assert after.wallets.Keys == before.wallets.Keys;
        SetSumChange(before.wallets.Keys, users[n], Points(before.wallets), Points(after.wallets));
      }
    }
  }

  /** A user's available balance after `owed` points have been taken, down to zero. */
  predicate Drained(before: Wallet, after: Wallet, owed: int) {
    after.escrow == before.escrow && after.available == Max(0, before.available - owed) && owed >= 0
  }

  lemma ExpireDrains(w: World, grace: int, user: string, m: Moment, other: string)
    requires other in w.wallets && w.wallets[other].available >= 0 && Due(w, grace, user, m) >= 0
    ensures var w' := ExpireUser(w, grace, user, m).1;
            other in w'.wallets
            && Drained(w.wallets[other], w'.wallets[other], if user == other then Due(w, grace, user, m) else 0)
  {
  }

  lemma DueInBatch(w: World, grace: int, users: seq<string>, clock: seq<Moment>, other: string, later: Moment)
    requires |clock| == |users| && AllWellFormed(w.entries)
    ensures Due(RunUsers(w, grace, users, clock).0, grace, other, later) == Due(w, grace, other, later) >= 0
  {
    BatchDueUnchanged(w, grace, users, clock, other, later);
    DueNonNegative(w, grace, other, later);
  }

  /** A batch drains each wallet by all the user owes at every place in the list, down to
      zero and no further, and touches no escrow balance. As nothing marks a credit as
      expired, a user named twice, on one day or on two, owes the same credits twice. */
  lemma {:induction false} BatchDrains(w: World, grace: int, users: seq<string>, clock: seq<Moment>, user: string)
    requires |clock| == |users| && AllWellFormed(w.entries)
    requires user in w.wallets && w.wallets[user].available >= 0
    ensures var w' := RunUsers(w, grace, users, clock).0;
            user in w'.wallets && Drained(w.wallets[user], w'.wallets[user], Owed(w, grace, users, clock, user))
  {
    if users != [] {
      var n := |users| - 1;
      var before := RunUsers(w, grace, users[..n], clock[..n]).0;
      BatchDrains(w, grace, users[..n], clock[..n], user);
      DueInBatch(w, grace, users[..n], clock[..n], users[n], clock[n]);
      ExpireDrains(before, grace, users[n], clock[n], user);
    }
  }

  /** A second expiry on one day debits the wallet again and writes no entry: the day's key
      is used. */
  lemma SecondExpiryUnrecorded(w: World, grace: int, user: string, m: Moment, again: Moment)
    requires AllWellFormed(w.entries) && again.day == m.day
    requires Due(w, grace, user, again) > 0 && user in w.wallets
    requires 0 < Due(w, grace, user, m) < w.wallets[user].available
    ensures var w1 := ExpireUser(w, grace, user, m).1;
            var w2 := ExpireUser(w1, grace, user, again).1;
            && w2.entries == w1.entries
            && w2.wallets[user].available < w1.wallets[user].available < w.wallets[user].available
  {
    DueUnchanged(w, grace, user, m, user, again);
    var w1 := ExpireUser(w, grace, user, m).1;
    if !KeyUsed(w.entries, ExpiryKey(user, m.day)) {
      assert w1.entries[|w.entries|].key == ExpiryKey(user, m.day);
    }
  }

  // --------------------------------------------------------------- recorded debits

  /** The user at place `k` of the list is debited, judged on the world before the batch:
      something is due and the wallet still holds something. */
  predicate Pays(w: World, grace: int, users: seq<string>, clock: seq<Moment>, k: nat)
    requires |clock| == |users| && k < |users|
  {
    && users[k] in w.wallets && Due(w, grace, users[k], clock[k]) > 0
    && w.wallets[users[k]].available > Owed(w, grace, users[..k], clock[..k], users[k])
  }

  ghost predicate NoDebts(w: World) { forall u :: u in w.wallets ==> w.wallets[u].available >= 0 }

  lemma PaysExactly(w: World, grace: int, users: seq<string>, clock: seq<Moment>, k: nat)
    requires |clock| == |users| && k < |users| && AllWellFormed(w.entries) && NoDebts(w)
    ensures Pays(w, grace, users, clock, k)
            <==> ExpireUser(RunUsers(w, grace, users[..k], clock[..k]).0, grace, users[k], clock[k]).0.Debited?
  {
    DueInBatch(w, grace, users[..k], clock[..k], users[k], clock[k]);
    BatchCounts(w, grace, users[..k], clock[..k]);
    if users[k] in w.wallets {
      BatchDrains(w, grace, users[..k], clock[..k], users[k]);
    }
  }

  /** The places of the list that are debited. */
  function PaidPlaces(w: World, grace: int, users: seq<string>, clock: seq<Moment>, n: nat): nat
    requires |clock| == |users| && n <= |users|
  {
    if n == 0 then 0 else PaidPlaces(w, grace, users, clock, n - 1) + if Pays(w, grace, users, clock, n - 1) then 1 else 0
  }

  /** The successes a batch reports are exactly the debited places. */
  lemma {:induction false} BatchSuccesses(w: World, grace: int, users: seq<string>, clock: seq<Moment>, n: nat)
    requires |clock| == |users| && n <= |users| && AllWellFormed(w.entries) && NoDebts(w)
    ensures RunUsers(w, grace, users[..n], clock[..n]).1.successCount == PaidPlaces(w, grace, users, clock, n)
  {
    if n > 0 {
      BatchSuccesses(w, grace, users, clock, n - 1);
      PaysExactly(w, grace, users, clock, n - 1);
      assert users[..n][..n - 1] == users[..n - 1] && clock[..n][..n - 1] == clock[..n - 1];
    }
  }

  /** Keys of different users or days differ, a day being ten characters. */
  lemma ExpiryKeysDiffer(user: string, day: Day, other: string, later: Day)
    requires ExpiryKey(user, day) == ExpiryKey(other, later)
    ensures user == other && day == later
  {
    var a, b := ExpiryKey(user, day), ExpiryKey(other, later);
    assert a[|a| - 10..] == day && b[|b| - 10..] == later;
    assert a[11..|a| - 11] == user && b[11..|b| - 11] == other;
  }

  predicate PaidOn(w: World, grace: int, users: seq<string>, clock: seq<Moment>, user: string, day: Day)
    requires |clock| == |users|
  {
    exists j :: 0 <= j < |users| && users[j] == user && clock[j].day == day && Pays(w, grace, users, clock, j)
  }

  lemma PaidOnNext(w: World, grace: int, users: seq<string>, clock: seq<Moment>, user: string, day: Day)
    requires |clock| == |users| > 0
    ensures var n := |users| - 1;
            PaidOn(w, grace, users, clock, user, day)
            <==> PaidOn(w, grace, users[..n], clock[..n], user, day)
                 || (users[n] == user && clock[n].day == day && Pays(w, grace, users, clock, n))
  {
    var n := |users| - 1;
    forall j | 0 <= j < n ensures Pays(w, grace, users[..n], clock[..n], j) <==> Pays(w, grace, users, clock, j) {
      assert users[..n][..j] == users[..j] && clock[..n][..j] == clock[..j];
    }
    if PaidOn(w, grace, users[..n], clock[..n], user, day) {
      var j :| 0 <= j < n && users[..n][j] == user && clock[..n][j].day == day && Pays(w, grace, users[..n], clock[..n], j);
      assert Pays(w, grace, users, clock, j);
    }
    if PaidOn(w, grace, users, clock, user, day) {
      var j :| 0 <= j < |users| && users[j] == user && clock[j].day == day && Pays(w, grace, users, clock, j);
      assert j < n ==> users[..n][j] == user && clock[..n][j].day == day && Pays(w, grace, users[..n], clock[..n], j);
    }
  }

  lemma KeyOfAppended(es: seq<Entry>, e: Entry, key: string)
    ensures KeyUsed(Append(es, e), key) <==> KeyUsed(es, key) || e.key == key
  {
    var es' := Append(es, e);
    if KeyUsed(es, key) {
      var k :| 0 <= k < |es| && es[k].key == key;
      assert es'[k].key == key;
    }
    if !KeyUsed(es, e.key) {
      assert es'[|es|] == e;
    }
  }

  /** A day's key is used by the end of a batch exactly when it was used before it or the
      batch has debited the user on that day. */
  lemma {:induction false} KeyInBatch(w: World, grace: int, users: seq<string>, clock: seq<Moment>, user: string, day: Day)
    requires |clock| == |users| && AllWellFormed(w.entries) && NoDebts(w)
    ensures KeyUsed(RunUsers(w, grace, users, clock).0.entries, ExpiryKey(user, day))
            <==> KeyUsed(w.entries, ExpiryKey(user, day)) || PaidOn(w, grace, users, clock, user, day)
  {
    if users != [] {
      var n := |users| - 1;
      var before := RunUsers(w, grace, users[..n], clock[..n]).0;
      KeyInBatch(w, grace, users[..n], clock[..n], user, day);
      PaysExactly(w, grace, users, clock, n);
      PaidOnNext(w, grace, users, clock, user, day);
      KeyInStep(before, grace, users[n], clock[n], user, day);
    }
  }

  lemma KeyInStep(w: World, grace: int, user: string, m: Moment, other: string, day: Day)
    ensures var (outcome, w') := ExpireUser(w, grace, user, m);
            KeyUsed(w'.entries, ExpiryKey(other, day))
            <==> KeyUsed(w.entries, ExpiryKey(other, day)) || (outcome.Debited? && user == other && m.day == day)
  {
    var (outcome, w') := ExpireUser(w, grace, user, m);
    if outcome.Debited? {
      var wallet := w.wallets[user];
      KeyOfAppended(w.entries, Entry(user, User, Available, Debit, -outcome.amount, wallet.available,
                                     wallet.available - outcome.amount, ExpiryKey(user, m.day), m.now),
                    ExpiryKey(other, day));
      if ExpiryKey(user, m.day) == ExpiryKey(other, day) {
        ExpiryKeysDiffer(user, m.day, other, day);
      }
    }
  }

  /** What a user's wallet has lost beyond what the ledger shows. */
  function Unrecorded(w: World, w': World, user: string): int
    requires user in w.wallets && user in w'.wallets
  {
    w.wallets[user].available - w'.wallets[user].available + AmountsOf(w'.entries, user) - AmountsOf(w.entries, user)
  }

  lemma StepUnrecorded(w: World, grace: int, user: string, m: Moment, other: string)
    requires other in w.wallets
    ensures var (outcome, w') := ExpireUser(w, grace, user, m);
            && other in w'.wallets
            && (outcome.Debited? ==> outcome.amount > 0)
            && Unrecorded(w, w', other) ==
                 if outcome.Debited? && user == other && KeyUsed(w.entries, ExpiryKey(user, m.day)) then outcome.amount else 0
  {
    var w' := ExpireUser(w, grace, user, m).1;
    if w'.entries != w.entries {
      assert w'.entries[..|w'.entries| - 1] == w.entries;
    }
  }

  /** Every debit of the user finds its day's key unused, before the batch and within it. */
  ghost predicate AllRecorded(w: World, grace: int, users: seq<string>, clock: seq<Moment>, user: string)
    requires |clock| == |users|
  {
    forall k :: 0 <= k < |users| && users[k] == user && Pays(w, grace, users, clock, k) ==>
      && !KeyUsed(w.entries, ExpiryKey(user, clock[k].day))
      && forall j :: 0 <= j < k && users[j] == user && Pays(w, grace, users, clock, j) ==> clock[j].day != clock[k].day
  }

  lemma AllRecordedNext(w: World, grace: int, users: seq<string>, clock: seq<Moment>, user: string)
    requires |clock| == |users| > 0
    ensures var n := |users| - 1;
            AllRecorded(w, grace, users, clock, user)
            <==> AllRecorded(w, grace, users[..n], clock[..n], user)
                 && (users[n] == user && Pays(w, grace, users, clock, n) ==>
                       !KeyUsed(w.entries, ExpiryKey(user, clock[n].day))
                       && !PaidOn(w, grace, users[..n], clock[..n], user, clock[n].day))
  {
    var n := |users| - 1;
    forall j | 0 <= j < n
      ensures Pays(w, grace, users[..n], clock[..n], j) <==> Pays(w, grace, users, clock, j)
    {
      assert users[..n][..j] == users[..j] && clock[..n][..j] == clock[..j];
    }
    forall j | 0 <= j < n ensures users[..n][j] == users[j] && clock[..n][j] == clock[j] {}
  }

  /** A batch takes from a user's wallet what it adds to the ledger if and only if no two of
      its debits of the user fall on one day and those days' keys were unused. */
  lemma {:induction false} DropIsRecorded(w: World, grace: int, users: seq<string>, clock: seq<Moment>, user: string)
    requires |clock| == |users| && AllWellFormed(w.entries) && NoDebts(w) && user in w.wallets
    ensures var w' := RunUsers(w, grace, users, clock).0;
            && user in w'.wallets && Unrecorded(w, w', user) >= 0
            && (Unrecorded(w, w', user) == 0 <==> AllRecorded(w, grace, users, clock, user))
  {
    if users != [] {
      var n := |users| - 1;
      var before := RunUsers(w, grace, users[..n], clock[..n]).0;
      DropIsRecorded(w, grace, users[..n], clock[..n], user);
      StepUnrecorded(before, grace, users[n], clock[n], user);
      PaysExactly(w, grace, users, clock, n);
      KeyInBatch(w, grace, users[..n], clock[..n], users[n], clock[n].day);
      AllRecordedNext(w, grace, users, clock, user);
    }
  }

  // ---------------------------------------------------------------------- warning list

  predicate Soon(e: Entry, expiry: map<string, int>, now: int, until: int) {
    e.key in expiry && now <= expiry[e.key] <= until
  }

  function IndexOf(ws: seq<Warning>, user: string): (k: nat)
    ensures k <= |ws| && (k < |ws| ==> ws[k].user == user)
    ensures forall j :: 0 <= j < k ==> ws[j].user != user
  {
    if ws == [] then 0 else if ws[0].user == user then 0 else 1 + IndexOf(ws[1..], user)
  }

  function AmountSoon(found: seq<Entry>, expiry: map<string, int>, now: int, until: int, user: string): int {
    if found == [] then 0
    else
      var e := found[|found| - 1];
      AmountSoon(found[..|found| - 1], expiry, now, until, user)
      + if Soon(e, expiry, now, until) && e.account == user then e.amount else 0
  }

  predicate Named(ws: seq<Warning>, user: string) { exists j :: 0 <= j < |ws| && ws[j].user == user }

  /** One entry of the account expires soon, on the given date. */
  predicate SoonOn(found: seq<Entry>, expiry: map<string, int>, now: int, until: int, user: string, date: int) {
    exists k :: 0 <= k < |found| && Soon(found[k], expiry, now, until) && found[k].account == user
                && expiry[found[k].key] == date
  }

  /** A warning carries the sum of its user's entries and the earliest of their dates. */
  ghost predicate Exact(w: Warning, found: seq<Entry>, expiry: map<string, int>, now: int, until: int) {
    && w.amount == AmountSoon(found, expiry, now, until, w.user)
    && SoonOn(found, expiry, now, until, w.user, w.expiresAt)
    && forall k :: 0 <= k < |found| && Soon(found[k], expiry, now, until) && found[k].account == w.user
         ==> w.expiresAt <= expiry[found[k].key]
  }

  /** One exact warning for each account that has an entry expiring soon, and no other. */
  ghost predicate Groups(ws: seq<Warning>, found: seq<Entry>, expiry: map<string, int>, now: int, until: int) {
    && (forall i, j :: 0 <= i < j < |ws| ==> ws[i].user != ws[j].user)
    && (forall j :: 0 <= j < |ws| ==> Exact(ws[j], found, expiry, now, until))
    && (forall k :: 0 <= k < |found| && Soon(found[k], expiry, now, until) ==> Named(ws, found[k].account))
  }

  lemma {:induction false} NothingSoon(found: seq<Entry>, expiry: map<string, int>, now: int, until: int, user: string)
    requires forall k :: 0 <= k < |found| && Soon(found[k], expiry, now, until) ==> found[k].account != user
    ensures AmountSoon(found, expiry, now, until, user) == 0
  {
    if found != [] {
      NothingSoon(found[..|found| - 1], expiry, now, until, user);
    }
  }

  /** An entry that is not soon, or of another account, leaves a warning exact. */
  lemma ExactKept(w: Warning, found: seq<Entry>, e: Entry, expiry: map<string, int>, now: int, until: int)
    requires Exact(w, found, expiry, now, until)
    requires Soon(e, expiry, now, until) ==> e.account != w.user
    ensures Exact(w, found + [e], expiry, now, until)
  {
    assert (found + [e])[..|found|] == found;
    var k :| 0 <= k < |found| && Soon(found[k], expiry, now, until) && found[k].account == w.user
             && expiry[found[k].key] == w.expiresAt;
    assert (found + [e])[k] == found[k];
  }

  /** An entry of the warning's own account is added to it. */
  lemma ExactGrows(w: Warning, found: seq<Entry>, e: Entry, expiry: map<string, int>, now: int, until: int)
    requires Exact(w, found, expiry, now, until)
    requires Soon(e, expiry, now, until) && e.account == w.user
    ensures Exact(w.(amount := w.amount + e.amount, expiresAt := Min(expiry[e.key], w.expiresAt)),
                  found + [e], expiry, now, until)
  {
    var grown := found + [e];
    assert grown[..|found|] == found && grown[|found|] == e;
    var k :| 0 <= k < |found| && Soon(found[k], expiry, now, until) && found[k].account == w.user
             && expiry[found[k].key] == w.expiresAt;
    assert grown[k] == found[k];
  }

  lemma ExactStarts(found: seq<Entry>, e: Entry, expiry: map<string, int>, now: int, until: int)
    requires Soon(e, expiry, now, until)
    requires forall k :: 0 <= k < |found| && Soon(found[k], expiry, now, until) ==> found[k].account != e.account
    ensures Exact(Warning(e.account, e.amount, expiry[e.key]), found + [e], expiry, now, until)
  {
    NothingSoon(found, expiry, now, until, e.account);
    assert (found + [e])[..|found|] == found && (found + [e])[|found|] == e;
  }

  /** The list after one more entry: added to its account's warning or to a new one. */
  function WithEntry(ws: seq<Warning>, e: Entry, expiry: map<string, int>, now: int, until: int): seq<Warning> {
    var k := IndexOf(ws, e.account);
    if !Soon(e, expiry, now, until) then ws
    else if k < |ws| then
      ws[k := Warning(e.account, ws[k].amount + e.amount, Min(expiry[e.key], ws[k].expiresAt))]
    else ws + [Warning(e.account, e.amount, expiry[e.key])]
  }

  lemma NamedKept(ws: seq<Warning>, ws': seq<Warning>, found: seq<Entry>, e: Entry, expiry: map<string, int>,
                  now: int, until: int)
    requires Groups(ws, found, expiry, now, until) && ws' == WithEntry(ws, e, expiry, now, until)
    ensures forall k :: 0 <= k < |found + [e]| && Soon((found + [e])[k], expiry, now, until) ==>
              Named(ws', (found + [e])[k].account)
  {
    var grown := found + [e];
    assert forall j :: 0 <= j < |ws| ==> ws'[j].user == ws[j].user;
    forall k | 0 <= k < |grown| && Soon(grown[k], expiry, now, until) ensures Named(ws', grown[k].account) {
      if k < |found| {
        assert Named(ws, found[k].account);
      } else {
        assert ws'[IndexOf(ws, e.account)].user == e.account;
      }
    }
  }

  /** The grouping step of the loop keeps the list exact. */
  lemma {:induction false} GroupsStep(ws: seq<Warning>, ws': seq<Warning>, found: seq<Entry>, e: Entry,
                                      expiry: map<string, int>, now: int, until: int)
    requires Groups(ws, found, expiry, now, until) && ws' == WithEntry(ws, e, expiry, now, until)
    ensures Groups(ws', found + [e], expiry, now, until)
  {
    var grown := found + [e];
    var at := IndexOf(ws, e.account);
    forall j | 0 <= j < |ws'| ensures Exact(ws'[j], grown, expiry, now, until) {
      if j < |ws| {
        assert Exact(ws[j], found, expiry, now, until);
        if Soon(e, expiry, now, until) && j == at {
          ExactGrows(ws[j], found, e, expiry, now, until);
        } else {
          ExactKept(ws[j], found, e, expiry, now, until);
        }
      } else {
        ExactStarts(found, e, expiry, now, until);
      }
    }
    NamedKept(ws, ws', found, e, expiry, now, until);
  }

  /** The entry is the user's and expires within the period, its ends included. */
  predicate ExpiresWithin(e: Entry, expiry: map<string, int>, now: int, until: int, user: string) {
    e.account == user && e.key in expiry && now <= expiry[e.key] && expiry[e.key] <= until
  }

  /** Who is warned, and of what: exactly the accounts with an entry that expires within the
      period. The amount warned of is zero for no entries, and each entry adds its amount
      exactly when it is the account's and expires within the period. */
  lemma WarnedExactly(ws: seq<Warning>, found: seq<Entry>, e: Entry, expiry: map<string, int>, now: int, until: int,
                      user: string)
    requires Groups(ws, found, expiry, now, until)
    ensures Named(ws, user) <==> exists k :: 0 <= k < |found| && ExpiresWithin(found[k], expiry, now, until, user)
    ensures AmountSoon([], expiry, now, until, user) == 0
    ensures AmountSoon(found + [e], expiry, now, until, user) == AmountSoon(found, expiry, now, until, user)
              + if ExpiresWithin(e, expiry, now, until, user) then e.amount else 0
  {
    assert (found + [e])[..|found|] == found;
    if Named(ws, user) {
      var j :| 0 <= j < |ws| && ws[j].user == user;
      assert Exact(ws[j], found, expiry, now, until);
      var k :| 0 <= k < |found| && Soon(found[k], expiry, now, until) && found[k].account == user
               && expiry[found[k].key] == ws[j].expiresAt;
      assert ExpiresWithin(found[k], expiry, now, until, user);
    }
    if exists k :: 0 <= k < |found| && ExpiresWithin(found[k], expiry, now, until, user) {
      var k :| 0 <= k < |found| && ExpiresWithin(found[k], expiry, now, until, user);
      assert Soon(found[k], expiry, now, until);
    }
  }

  // -------------------------------------------------------- warnings beyond the page

  predicate SomeSoon(found: seq<Entry>, expiry: map<string, int>, now: int, until: int) {
    exists k :: 0 <= k < |found| && Soon(found[k], expiry, now, until)
  }

  lemma {:induction false} AmountSoonBoth(a: seq<Entry>, b: seq<Entry>, expiry: map<string, int>, now: int, until: int, user: string)
    ensures AmountSoon(a + b, expiry, now, until, user)
            == AmountSoon(a, expiry, now, until, user) + AmountSoon(b, expiry, now, until, user)
  {
    if b == [] {
      assert a + b == a;
    } else {
      var n := |b| - 1;
      AmountSoonBoth(a, b[..n], expiry, now, until, user);
      assert (a + b)[..|a + b| - 1] == a + b[..n];
    }
  }

  lemma {:induction false} AmountSoonPositive(found: seq<Entry>, expiry: map<string, int>, now: int, until: int, k: nat)
    requires AllPositive(found) && k < |found| && Soon(found[k], expiry, now, until)
    ensures AmountSoon(found, expiry, now, until, found[k].account) > 0
  {
    var n := |found| - 1;
    if k < n {
      AmountSoonPositive(found[..n], expiry, now, until, k);
    } else {
      AmountSoonNonNegative(found[..n], expiry, now, until, found[k].account);
    }
  }

  lemma {:induction false} AmountSoonNonNegative(found: seq<Entry>, expiry: map<string, int>, now: int, until: int, user: string)
    requires AllPositive(found)
    ensures AmountSoon(found, expiry, now, until, user) >= 0
  {
    if found != [] {
      AmountSoonNonNegative(found[..|found| - 1], expiry, now, until, user);
    }
  }

  /** Entries that do not expire soon change no warning. */
  lemma ExactBeyond(w: Warning, page: seq<Entry>, rest: seq<Entry>, expiry: map<string, int>, now: int, until: int)
    requires Exact(w, page, expiry, now, until) && !SomeSoon(rest, expiry, now, until)
    ensures Exact(w, page + rest, expiry, now, until)
  {
    AmountSoonBoth(page, rest, expiry, now, until, w.user);
    NothingSoon(rest, expiry, now, until, w.user);
    var k :| 0 <= k < |page| && Soon(page[k], expiry, now, until) && page[k].account == w.user
             && expiry[page[k].key] == w.expiresAt;
    assert (page + rest)[k] == page[k];
  }

  lemma GroupsBeyond(ws: seq<Warning>, page: seq<Entry>, rest: seq<Entry>, expiry: map<string, int>, now: int, until: int)
    requires Groups(ws, page, expiry, now, until) && !SomeSoon(rest, expiry, now, until)
    ensures Groups(ws, page + rest, expiry, now, until)
  {
    forall j | 0 <= j < |ws| ensures Exact(ws[j], page + rest, expiry, now, until) {
      ExactBeyond(ws[j], page, rest, expiry, now, until);
    }
    var all := page + rest;
    forall k | |page| <= k < |all| ensures !Soon(all[k], expiry, now, until) {
      assert all[k] == rest[k - |page|];
    }
    forall k | 0 <= k < |all| && Soon(all[k], expiry, now, until) ensures Named(ws, all[k].account) {
      assert all[k] == page[k];
    }
  }

  /** An entry that expires soon beyond the page spoils its account's warning. */
  lemma GroupsSpoiled(ws: seq<Warning>, page: seq<Entry>, rest: seq<Entry>, expiry: map<string, int>, now: int, until: int)
    requires Groups(ws, page, expiry, now, until) && AllPositive(rest) && SomeSoon(rest, expiry, now, until)
    ensures !Groups(ws, page + rest, expiry, now, until)
  {
    var k :| 0 <= k < |rest| && Soon(rest[k], expiry, now, until);
    var user := rest[k].account;
    AmountSoonBoth(page, rest, expiry, now, until, user);
    AmountSoonPositive(rest, expiry, now, until, k);
    assert (page + rest)[|page| + k] == rest[k];
    if Named(ws, user) {
      var j :| 0 <= j < |ws| && ws[j].user == user;
      assert Exact(ws[j], page, expiry, now, until);
      assert !Exact(ws[j], page + rest, expiry, now, until);
    }
  }

  /** Exact for the newest `limit` entries; and, amounts being positive, exact for them all
      if and only if no entry beyond the page expires soon. */
  ghost predicate ExactWithin(ws: seq<Warning>, all: seq<Entry>, limit: nat, expiry: map<string, int>, now: int, until: int) {
    && Groups(ws, Page(all, limit), expiry, now, until)
    && (AllPositive(Unseen(all, limit)) ==>
          (Groups(ws, all, expiry, now, until) <==> !SomeSoon(Unseen(all, limit), expiry, now, until)))
  }

  /** A list that is exact for what the query returns is exact within the page. */
  lemma WarningsExactly(ws: seq<Warning>, es: seq<Entry>, f: Filter, limit: nat, expiry: map<string, int>, now: int, until: int)
    requires Groups(ws, Newest(es, f, limit), expiry, now, until)
    ensures ExactWithin(ws, Matching(es, f), limit, expiry, now, until)
  {
    NewestIsPage(es, f, limit);
    var all := Matching(es, f);
    var page, rest := Page(all, limit), Unseen(all, limit);
    assert all == page + rest;
    if AllPositive(rest) {
      if SomeSoon(rest, expiry, now, until) {
        GroupsSpoiled(ws, page, rest, expiry, now, until);
      } else {
        GroupsBeyond(ws, page, rest, expiry, now, until);
      }
    }
  }

  /** When every matching entry fits the page the list is exact for all of them. */
  lemma WarningsComplete(ws: seq<Warning>, all: seq<Entry>, limit: nat, expiry: map<string, int>, now: int, until: int)
    requires ExactWithin(ws, all, limit, expiry, now, until) && |all| <= limit
    ensures Groups(ws, all, expiry, now, until)
  {
  }

  // -------------------------------------------------------------------------- service

  /** The metadata of an expiry: a date and an amount, which the ledger accepts. */
  const OWN_FIELDS := [Metadata.Field("expirationDate", Metadata.Other), Metadata.Field("amountExpired", Metadata.Other)]

  lemma OwnFieldsAccepted()
    ensures !Metadata.Refused(OWN_FIELDS)
  {
    assert !Metadata.PersonalName("expirationDate") && !Metadata.PersonalName("amountExpired");
  }

  class PointExpirationService {
    const ledger: LedgerService
    const gracePeriod: int
    const warningPeriod: int
    const batchSize: nat
    var wallets: map<string, Wallet>
    var expiry: map<string, int>

    constructor (ledger: LedgerService, gracePeriod: int, warningPeriod: int, batchSize: nat)
      ensures this.ledger == ledger && this.gracePeriod == gracePeriod
      ensures this.warningPeriod == warningPeriod && this.batchSize == batchSize
      ensures wallets == map[] && expiry == map[]
    {
      this.ledger, this.gracePeriod, this.warningPeriod, this.batchSize := ledger, gracePeriod, warningPeriod, batchSize;
      wallets, expiry := map[], map[];
    }

    function View(): World
      reads this, ledger
    {
      World(wallets, ledger.entries, expiry)
    }

    method SumExpired(found: seq<Entry>, cutoff: int) returns (totalExpired: int)
      ensures totalExpired == ExpiredIn(found, expiry, cutoff)
    {
      totalExpired := 0;
      for i := 0 to |found|
        invariant totalExpired == ExpiredIn(found[..i], expiry, cutoff)
      {
        assert found[..i + 1][..i] == found[..i];
        if found[i].key in expiry && expiry[found[i].key] <= cutoff {
          totalExpired := totalExpired + found[i].amount;
        }
      }
      assert found[..|found|] == found;
    }

    /** Takes the amount from the wallet, then records it. */
    method Withdraw(user: string, total: int, m: Moment) returns (r: Expiry)
      requires ledger.Valid() && ledger.Since(m.now)
      modifies this`wallets, ledger
      ensures ledger.Valid() && Advanced(old(ledger.entries), m.now)
      ensures (r, View()) == Withdrawn(old(View()), user, total, m)
    {
      if user !in wallets {
        return NoWallet;
      }
      var wallet := wallets[user];
      var amount := Min(total, wallet.available);
      if amount <= 0 {
        return NothingDue;
      }
      wallets := wallets[user := wallet.(available := wallet.available - amount, version := wallet.version + 1)];
      OwnFieldsAccepted();
      var entry := Entry(user, User, Available, Debit, -amount, wallet.available, wallet.available - amount,
                         ExpiryKey(user, m.day), m.now);
      var created := ledger.CreateEntry(entry, "point_expiry", OWN_FIELDS, m.now);
      return Debited(amount);
    }

    /** The last entry is an old one or one stamped `now`. */
    ghost predicate Advanced(earlier: seq<Entry>, now: int)
      reads ledger
    {
      ledger.entries == earlier || (ledger.entries != [] && ledger.entries[|ledger.entries| - 1].stamp == now)
    }

    method ProcessUserExpiration(user: string, m: Moment) returns (r: Expiry)
      requires ledger.Valid() && ledger.Since(m.now)
      modifies this`wallets, ledger
      ensures ledger.Valid() && Advanced(old(ledger.entries), m.now)
      ensures (r, View()) == ExpireUser(old(View()), gracePeriod, user, m)
    {
      var found := Newest(ledger.entries, Filter(Some(user), Some(User)), QUERY_LIMIT);
      var totalExpired := SumExpired(found, m.now - gracePeriod);
      if totalExpired == 0 {
        return NothingDue;
      }
      r := Withdraw(user, totalExpired, m);
    }

    /** Handles the users from `from` to `end`, after those before `from`. */
    method ProcessSlice(users: seq<string>, clock: seq<Moment>, from: nat, end: nat, counted: BatchResult, ghost start: World)
      returns (result: BatchResult)
      requires ledger.Valid() && |clock| == |users| && from <= end <= |users|
      requires Ascending(clock) && Upcoming(clock, from)
      requires (View(), counted) == RunPrefix(start, gracePeriod, users, clock, from)
      modifies this`wallets, ledger
      ensures ledger.Valid() && Upcoming(clock, end)
      ensures (View(), result) == RunPrefix(start, gracePeriod, users, clock, end)
    {
      result := counted;
      for j := from to end
        invariant ledger.Valid() && Upcoming(clock, j)
        invariant (View(), result) == RunPrefix(start, gracePeriod, users, clock, j)
      {
        result := ProcessOne(users, clock, j, result, start);
      }
    }

    method ProcessOne(users: seq<string>, clock: seq<Moment>, j: nat, counted: BatchResult, ghost start: World)
      returns (result: BatchResult)
      requires ledger.Valid() && |clock| == |users| && j < |users|
      requires Ascending(clock) && Upcoming(clock, j)
      requires (View(), counted) == RunPrefix(start, gracePeriod, users, clock, j)
      modifies this`wallets, ledger
      ensures ledger.Valid() && Upcoming(clock, j + 1)
      ensures (View(), result) == RunPrefix(start, gracePeriod, users, clock, j + 1)
    {
      RunPrefixStep(start, gracePeriod, users, clock, j);
      var r := ProcessUserExpiration(users[j], clock[j]);
      result := Counted(counted, users[j], r);
    }

    method ProcessBatchExpiration(users: seq<string>, clock: seq<Moment>) returns (result: BatchResult)
      requires ledger.Valid() && batchSize > 0 && |clock| == |users|
      requires Ascending(clock) && Upcoming(clock, 0)
      modifies this`wallets, ledger
      ensures ledger.Valid()
      ensures (View(), result) == RunUsers(old(View()), gracePeriod, users, clock)
      ensures TotalAvailable(old(View())) - TotalAvailable(View()) == result.totalPointsExpired
      ensures result.usersProcessed + result.failureCount == |users|
      ensures result.errors == Missing(old(View()), gracePeriod, users, clock)
    {
      ghost var start := View();
      result := BatchResult(0, 0, 0, 0, []);
      var i := 0;
      while i < |users|
        invariant 0 <= i && ledger.Valid() && Upcoming(clock, i)
        invariant (View(), result) == RunPrefix(start, gracePeriod, users, clock, i)
        decreases |users| - i
      {
        var end := Min(i + batchSize, |users|);
        result := ProcessSlice(users, clock, i, end, result, start);
        i := i + batchSize;
      }
      RunPrefixEnd(start, gracePeriod, users, clock, i);
      BatchCounts(start, gracePeriod, users, clock);
      BatchConserves(start, gracePeriod, users, clock);
    }

    ghost predicate Upcoming(clock: seq<Moment>, i: nat)
      reads ledger
    {
      forall k :: i <= k < |clock| ==> ledger.Since(clock[k].now)
    }

    /** Groups the entries that expire soon by account, in order of first appearance. */
    method GroupSoon(found: seq<Entry>, now: int, until: int) returns (users: seq<Warning>)
      ensures Groups(users, found, expiry, now, until)
    {
      users := [];
      for i := 0 to |found|
        invariant Groups(users, found[..i], expiry, now, until)
      {
        var e := found[i];
        ghost var before := users;
        if Soon(e, expiry, now, until) {
          var k := IndexOf(users, e.account);
          if k < |users| {
            var date := if expiry[e.key] < users[k].expiresAt then expiry[e.key] else users[k].expiresAt;
            users := users[k := Warning(e.account, users[k].amount + e.amount, date)];
          } else {
            users := users + [Warning(e.account, e.amount, expiry[e.key])];
          }
        }
        assert users == WithEntry(before, e, expiry, now, until);
        GroupsStep(before, users, found[..i], e, expiry, now, until);
        assert found[..i + 1] == found[..i] + [e];
      }
      assert found[..|found|] == found;
    }

    /** The list of users to warn: exact for the entries the query returns, and for all of
        them when they fit the page or no entry beyond it expires soon. */
    method GetUsersWithExpiringPoints(now: int) returns (users: seq<Warning>)
      ensures ExactWithin(users, Matching(ledger.entries, Filter(None, None)), QUERY_LIMIT, expiry, now, now + warningPeriod)
    {
      var found := Newest(ledger.entries, Filter(None, None), QUERY_LIMIT);
      var until := now + warningPeriod;
      users := GroupSoon(found, now, until);
      WarningsExactly(users, ledger.entries, Filter(None, None), QUERY_LIMIT, expiry, now, until);
    }
  }

  ghost function RunPrefix(w: World, grace: int, users: seq<string>, clock: seq<Moment>, i: nat): (World, BatchResult)
    requires |clock| == |users|
  {
    var n := Min(i, |users|);
    RunUsers(w, grace, users[..n], clock[..n])
  }

  lemma RunPrefixStep(w: World, grace: int, users: seq<string>, clock: seq<Moment>, i: nat)
    requires |clock| == |users| && i < |users|
    ensures var (before, r) := RunPrefix(w, grace, users, clock, i);
            var (outcome, after) := ExpireUser(before, grace, users[i], clock[i]);
            RunPrefix(w, grace, users, clock, i + 1) == (after, Counted(r, users[i], outcome))
  {
    assert users[..i + 1][..i] == users[..i] && clock[..i + 1][..i] == clock[..i];
  }

  /** Past the end of the list the prefix is the whole list. */
  lemma RunPrefixEnd(w: World, grace: int, users: seq<string>, clock: seq<Moment>, i: nat)
    requires |clock| == |users| <= i
    ensures RunPrefix(w, grace, users, clock, i) == RunUsers(w, grace, users, clock)
  {
    assert users[..|users|] == users && clock[..|users|] == clock;
  }
}
