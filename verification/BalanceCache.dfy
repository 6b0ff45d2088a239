/** The balance snapshot cache and how far it lags the wallets it speeds up. */
module BalanceCache {
  import opened Accounts
  import opened Options

  datatype Cached = Cached(available: int, escrow: Option<int>, earned: Option<int>, lastUpdated: int, version: nat)

  type Cache = map<string, Cached>

  function CacheKey(accountId: string, accountType: AccountType): string {
    (if accountType == User then "user:" else "model:") + accountId
  }

  lemma KeysDiffer(a: string, t: AccountType, b: string, u: AccountType)
    requires CacheKey(a, t) == CacheKey(b, u)
    ensures a == b && t == u
  {
    var k := CacheKey(a, t);
    assert k[0] == (if t == User then 'u' else 'm') && k[0] == (if u == User then 'u' else 'm');
    assert k[if t == User then 5 else 6..] == a && k[if u == User then 5 else 6..] == b;
  }

  // ------------------------------------------------------------------ event handlers

  /** A user's event carries both balances of the user. */
  function PutUser(c: Cache, userId: string, available: int, escrow: int, at: int): Cache {
    var key := CacheKey(userId, User);
    c[key := if key in c
             then c[key].(available := available, escrow := Some(escrow), lastUpdated := at, version := c[key].version + 1)
             else Cached(available, Some(escrow), None, at, 1)]
  }

  function PutModel(c: Cache, modelId: string, earned: int, at: int): Cache {
    var key := CacheKey(modelId, Model);
    c[key := if key in c then c[key].(earned := Some(earned), lastUpdated := at, version := c[key].version + 1)
             else Cached(0, None, Some(earned), at, 1)]
  }

  /** A general balance event sets the one balance it names. */
  function PutBalance(c: Cache, accountId: string, accountType: AccountType, state: BalanceState, after: int, at: int): Cache {
    var key := CacheKey(accountId, accountType);
    c[key :=
      if key in c then
        var touched := c[key].(lastUpdated := at, version := c[key].version + 1);
        match state
        case Available => touched.(available := after)
        case Escrow => touched.(escrow := Some(after))
        case Earned => touched.(earned := Some(after))
      else
        Cached(if accountType == User && state == Available then after else 0,
               Some(if accountType == User && state == Escrow then after else 0),
               Some(if accountType == Model && state == Earned then after else 0), at, 1)]
  }

  /** What is left after eviction: everything that fits, and otherwise exactly `maxSize`
      entries, none of them older than an evicted one. */
  ghost predicate Evicted(full: Cache, kept: Cache, maxSize: nat) {
    && (forall k :: k in kept ==> k in full && kept[k] == full[k])
    && |kept| == (if |full| <= maxSize then |full| else maxSize)
    && (forall k, l :: k in full && k !in kept && l in kept ==> full[k].lastUpdated <= full[l].lastUpdated)
  }

  /** The entry with the latest time outlives an eviction. */
  lemma NewestSurvives(full: Cache, kept: Cache, maxSize: nat, key: string)
    requires maxSize > 0 && Evicted(full, kept, maxSize) && key in full
    requires forall k :: k in full && k != key ==> full[k].lastUpdated < full[key].lastUpdated
    ensures key in kept && kept[key] == full[key]
  {
    var l :| l in kept;
  }

  /** The entry of the account is the one given, and no other account's entry is new or changed. */
  ghost predicate Stored(c: Cache, kept: Cache, key: string, entry: Cached) {
    key in kept && kept[key] == entry && forall k :: k in kept && k != key ==> k in c && kept[k] == c[k]
  }

  /** All entries of other accounts are older. */
  ghost predicate Latest(c: Cache, key: string, at: int) { forall k :: k in c && k != key ==> c[k].lastUpdated < at }

  /** After a user's event the cache answers with the balances the event carries. */
  lemma UserIsStored(c: Cache, kept: Cache, maxSize: nat, u: string, available: int, escrow: int, at: int)
    requires maxSize > 0 && Evicted(PutUser(c, u, available, escrow, at), kept, maxSize) && Latest(c, "user:" + u, at)
    ensures var key := "user:" + u;
            Stored(c, kept, key, if key in c then Cached(available, Some(escrow), c[key].earned, at, c[key].version + 1)
                                 else Cached(available, Some(escrow), None, at, 1))
  {
    NewestSurvives(PutUser(c, u, available, escrow, at), kept, maxSize, "user:" + u);
  }

  /** After a settle's event it answers with the model's earned balance. */
  lemma ModelIsStored(c: Cache, kept: Cache, maxSize: nat, m: string, earned: int, at: int)
    requires maxSize > 0 && Evicted(PutModel(c, m, earned, at), kept, maxSize) && Latest(c, "model:" + m, at)
    ensures var key := "model:" + m;
            Stored(c, kept, key,
                   if key in c then Cached(c[key].available, c[key].escrow, Some(earned), at, c[key].version + 1)
                   else Cached(0, None, Some(earned), at, 1))
  {
    NewestSurvives(PutModel(c, m, earned, at), kept, maxSize, "model:" + m);
  }

  /** The balance an entry holds in a state. */
  function Held(e: Cached, state: BalanceState): Option<int> {
    match state
    case Available => Some(e.available)
    case Escrow => e.escrow
    case Earned => e.earned
  }

  /** After a general balance event it answers with the one balance the event names, and the
      others are as they were. In a new entry they are zero, and so is the named one when it
      is a user's earned or a model's available or escrow balance. */
  lemma BalanceIsStored(c: Cache, kept: Cache, maxSize: nat, id: string, t: AccountType, state: BalanceState, after: int,
                        at: int)
    requires maxSize > 0 && Evicted(PutBalance(c, id, t, state, after, at), kept, maxSize)
    requires Latest(c, CacheKey(id, t), at)
    ensures var key := CacheKey(id, t);
            && key in kept
            && Stored(c, kept, key, kept[key]) && kept[key].lastUpdated == at
            && kept[key].version == (if key in c then c[key].version + 1 else 1)
            && Held(kept[key], state) == Some(if key in c || (t == Model <==> state == Earned) then after else 0)
            && forall other :: other != state ==> Held(kept[key], other) == if key in c then Held(c[key], other) else Some(0)
  {
    NewestSurvives(PutBalance(c, id, t, state, after, at), kept, maxSize, CacheKey(id, t));
  }

  lemma OldestExists(c: Cache) returns (key: string)
    requires |c| > 0
    ensures key in c && forall k :: k in c ==> c[key].lastUpdated <= c[k].lastUpdated
  {
    var k0 :| k0 in c;
    key := OldestFrom(c, c.Keys, k0);
  }

  lemma {:induction false} OldestFrom(c: Cache, keys: set<string>, k0: string) returns (key: string)
    requires keys <= c.Keys && k0 in c
    ensures key in c && c[key].lastUpdated <= c[k0].lastUpdated
    ensures forall k :: k in keys ==> c[key].lastUpdated <= c[k].lastUpdated
    decreases |keys|
  {
    key := k0;
    if keys != {} {
      var k :| k in keys;
      key := OldestFrom(c, keys - {k}, if c[k].lastUpdated < c[k0].lastUpdated then k else k0);
    }
  }

  class BalanceSnapshotCache {
    var cache: Cache
    const maxSize: nat
    const ttlMs: int

    constructor (maxSize: nat, ttlMs: int)
      ensures cache == map[] && this.maxSize == maxSize && this.ttlMs == ttlMs
    {
      cache := map[];
      this.maxSize, this.ttlMs := maxSize, ttlMs;
    }

    method HandleBalanceUpdated(accountId: string, accountType: AccountType, state: BalanceState, after: int, at: int)
      modifies this
      ensures Evicted(PutBalance(old(cache), accountId, accountType, state, after, at), cache, maxSize)
    {
      var key := CacheKey(accountId, accountType);
      if key !in cache {
        cache := cache[key := Cached(if accountType == User && state == Available then after else 0,
                                     Some(if accountType == User && state == Escrow then after else 0),
                                     Some(if accountType == Model && state == Earned then after else 0), at, 1)];
      } else {
        var cached := cache[key];
        match state {
          case Available => cached := cached.(available := after);
          case Escrow => cached := cached.(escrow := Some(after));
          case Earned => cached := cached.(earned := Some(after));
        }
        cache := cache[key := cached.(lastUpdated := at, version := cached.version + 1)];
      }
      EvictIfNeeded();
    }

    method SetUser(userId: string, available: int, escrow: int, at: int)
      modifies this
      ensures cache == PutUser(old(cache), userId, available, escrow, at)
    {
      var key := CacheKey(userId, User);
      if key !in cache {
        cache := cache[key := Cached(available, Some(escrow), None, at, 1)];
      } else {
        var cached := cache[key];
        cache := cache[key := cached.(available := available, escrow := Some(escrow), lastUpdated := at,
                                      version := cached.version + 1)];
      }
    }

    method SetModel(modelId: string, earned: int, at: int)
      modifies this
      ensures cache == PutModel(old(cache), modelId, earned, at)
    {
      var key := CacheKey(modelId, Model);
      if key !in cache {
        cache := cache[key := Cached(0, None, Some(earned), at, 1)];
      } else {
        var cached := cache[key];
        cache := cache[key := cached.(earned := Some(earned), lastUpdated := at, version := cached.version + 1)];
      }
    }

    method HandleEscrowHeld(userId: string, available: int, escrow: int, at: int)
      modifies this
      ensures Evicted(PutUser(old(cache), userId, available, escrow, at), cache, maxSize)
    {
      SetUser(userId, available, escrow, at);
      EvictIfNeeded();
    }

    /** Only the model is updated: the user's cached escrow balance is left as it was. */
    method HandleEscrowSettled(modelId: string, earned: int, at: int)
      modifies this
      ensures Evicted(PutModel(old(cache), modelId, earned, at), cache, maxSize)
    {
      SetModel(modelId, earned, at);
      EvictIfNeeded();
    }

    method HandleEscrowRefunded(userId: string, available: int, escrow: int, at: int)
      modifies this
      ensures Evicted(PutUser(old(cache), userId, available, escrow, at), cache, maxSize)
    {
      SetUser(userId, available, escrow, at);
      EvictIfNeeded();
    }

    method HandleEscrowPartialSettled(userId: string, available: int, escrow: int, modelId: string, earned: int, at: int)
      modifies this
      ensures Evicted(PutModel(PutUser(old(cache), userId, available, escrow, at), modelId, earned, at), cache, maxSize)
    {
      SetUser(userId, available, escrow, at);
      SetModel(modelId, earned, at);
      EvictIfNeeded();
    }

    /** A cached balance older than the ttl is dropped on the way. */
    method GetBalance(accountId: string, accountType: AccountType, now: int) returns (r: Option<Cached>)
      modifies this
      ensures var key := CacheKey(accountId, accountType);
              if key in old(cache) && now - old(cache)[key].lastUpdated <= ttlMs
              then r == Some(old(cache)[key]) && cache == old(cache)
              else r == None && cache == old(cache) - {key}
    {
      var key := CacheKey(accountId, accountType);
      if key !in cache {
        assert cache - {key} == cache;
        return None;
      }
      if now - cache[key].lastUpdated > ttlMs {
        cache := cache - {key};
        return None;
      }
      return Some(cache[key]);
    }

    /** The account is not cached any more, and every other account is cached as before. */
    method Invalidate(accountId: string, accountType: AccountType)
      modifies this
      ensures CacheKey(accountId, accountType) !in cache
      ensures forall other, otherType | other != accountId || otherType != accountType ::
                var key := CacheKey(other, otherType);
                (key in cache <==> key in old(cache)) && (key in cache ==> cache[key] == old(cache)[key])
    {
      forall other, otherType | other != accountId || otherType != accountType
        ensures CacheKey(other, otherType) != CacheKey(accountId, accountType)
      {
        if CacheKey(other, otherType) == CacheKey(accountId, accountType) {
          KeysDiffer(other, otherType, accountId, accountType);
        }
      }
      cache := cache - {CacheKey(accountId, accountType)};
    }

    /** Removes oldest entries until the cache fits. */
    method EvictIfNeeded()
      modifies this
      ensures Evicted(old(cache), cache, maxSize)
    {
      while |cache| > maxSize
        invariant forall k :: k in cache ==> k in old(cache) && cache[k] == old(cache)[k]
        invariant |cache| <= |old(cache)| && (|old(cache)| > maxSize ==> |cache| >= maxSize)
        invariant |old(cache)| <= maxSize ==> cache == old(cache)
        invariant forall k, l :: k in old(cache) && k !in cache && l in cache ==>
                    old(cache)[k].lastUpdated <= old(cache)[l].lastUpdated
        decreases |cache|
      {
        ghost var witnessKey := OldestExists(cache);
        var key :| key in cache && forall k :: k in cache ==> cache[key].lastUpdated <= cache[k].lastUpdated;
        assert |cache - {key}| == |cache| - 1 by { RemoveOne(cache, key); }
        cache := cache - {key};
      }
    }
  }

  lemma RemoveOne(c: Cache, key: string)
    requires key in c
    ensures |c - {key}| == |c| - 1
  {
    assert (c - {key}).Keys == c.Keys - {key};
    assert |c.Keys - {key}| == |c.Keys| - 1;
  }

  // ---------------------------------------------------------------------- cache lag

  datatype Wallet = Wallet(available: int, escrow: int)

  /** A completed escrow operation, whose event the cache has handled; a direct change of
      an available balance by an award, a deduction, an expiry or an adjustment, which
      publishes no event; or a loss of cached entries: eviction, expiry, invalidation. */
  datatype Happening =
    | Direct(user: string, change: int)
    | Hold(user: string, amount: int, at: int)
    | Settle(user: string, model: string, amount: int, at: int)
    | Refund(user: string, amount: int, at: int)
    | Partial(user: string, model: string, refund: int, settle: int, at: int)
    | Lose(kept: set<string>)

  datatype World = World(wallets: map<string, Wallet>, models: map<string, int>, cache: Cache)

  function WalletOf(w: World, u: string): Wallet { if u in w.wallets then w.wallets[u] else Wallet(0, 0) }

  function EarnedOf(w: World, m: string): int { if m in w.models then w.models[m] else 0 }

  /** The wallets change, the event carries the new balances, the handler stores them.
      The settle event carries no balance of the user. */
  function Happen(w: World, h: Happening): World {
    match h
    case Hold(u, amount, at) =>
      var x := Wallet(WalletOf(w, u).available - amount, WalletOf(w, u).escrow + amount);
      World(w.wallets[u := x], w.models, PutUser(w.cache, u, x.available, x.escrow, at))
    case Settle(u, m, amount, at) =>
      var x := Wallet(WalletOf(w, u).available, WalletOf(w, u).escrow - amount);
      var earned := EarnedOf(w, m) + amount;
      World(w.wallets[u := x], w.models[m := earned], PutModel(w.cache, m, earned, at))
    case Refund(u, amount, at) =>
      var x := Wallet(WalletOf(w, u).available + amount, WalletOf(w, u).escrow - amount);
      World(w.wallets[u := x], w.models, PutUser(w.cache, u, x.available, x.escrow, at))
    case Partial(u, m, refund, settle, at) =>
      var x := Wallet(WalletOf(w, u).available + refund, WalletOf(w, u).escrow - refund - settle);
      var earned := EarnedOf(w, m) + settle;
      World(w.wallets[u := x], w.models[m := earned],
            PutModel(PutUser(w.cache, u, x.available, x.escrow, at), m, earned, at))
    case Direct(u, change) =>
      w.(wallets := w.wallets[u := Wallet(WalletOf(w, u).available + change, WalletOf(w, u).escrow)])
    case Lose(kept) => w.(cache := map k | k in w.cache && k in kept :: w.cache[k])
  }

  function After(wallets: map<string, Wallet>, models: map<string, int>, hs: seq<Happening>): World {
    if hs == [] then World(wallets, models, map[])
    else Happen(After(wallets, models, hs[..|hs| - 1]), hs[|hs| - 1])
  }

  /** The user's event carries both balances of the user. */
  predicate Refreshes(h: Happening, u: string) { (h.Hold? || h.Refund? || h.Partial?) && h.user == u }

  function SettledBy(h: Happening, u: string): int { if h.Settle? && h.user == u then h.amount else 0 }

  function ChangedBy(h: Happening, u: string): int { if h.Direct? && h.user == u then h.change else 0 }

  /** The amounts settled for a user since the user's last hold, refund or partial settle. */
  function SettledSince(hs: seq<Happening>, u: string): int {
    if hs == [] then 0
    else
      var h := hs[|hs| - 1];
      if Refreshes(h, u) then 0 else SettledSince(hs[..|hs| - 1], u) + SettledBy(h, u)
  }

  /** The direct changes of a user's balance since then. */
  function ChangedSince(hs: seq<Happening>, u: string): int {
    if hs == [] then 0
    else
      var h := hs[|hs| - 1];
      if Refreshes(h, u) then 0 else ChangedSince(hs[..|hs| - 1], u) + ChangedBy(h, u)
  }

  /** How a user's cached balances differ from the wallet's. */
  predicate UserLags(w: World, u: string, changed: int, settled: int) {
    var key := CacheKey(u, User);
    key in w.cache ==>
      && w.cache[key].available == WalletOf(w, u).available - changed
      && w.cache[key].escrow == Some(WalletOf(w, u).escrow + settled)
  }

  predicate ModelCurrent(w: World, m: string) {
    var key := CacheKey(m, Model);
    key in w.cache ==> w.cache[key].earned == Some(EarnedOf(w, m))
  }

  lemma UserStep(w: World, h: Happening, u: string, changed: int, settled: int)
    requires UserLags(w, u, changed, settled)
    ensures UserLags(Happen(w, h), u, if Refreshes(h, u) then 0 else changed + ChangedBy(h, u),
                     if Refreshes(h, u) then 0 else settled + SettledBy(h, u))
  {
    if (h.Hold? || h.Refund? || h.Partial?) && CacheKey(h.user, User) == CacheKey(u, User) { KeysDiffer(h.user, User, u, User); }
    if (h.Settle? || h.Partial?) && CacheKey(h.model, Model) == CacheKey(u, User) { KeysDiffer(h.model, Model, u, User); }
  }

  lemma ModelStep(w: World, h: Happening, m: string)
    requires ModelCurrent(w, m)
    ensures ModelCurrent(Happen(w, h), m)
  {
    if (h.Hold? || h.Refund? || h.Partial?) && CacheKey(h.user, User) == CacheKey(m, Model) { KeysDiffer(h.user, User, m, Model); }
    if (h.Settle? || h.Partial?) && CacheKey(h.model, Model) == CacheKey(m, Model) { KeysDiffer(h.model, Model, m, Model); }
  }

  /** After any serial history of escrow operations and direct changes, with entries lost
      anywhere: a cached earned balance is the model wallet's, and since the user's last
      hold, refund or partial settle a cached available balance misses exactly the direct
      changes and a cached escrow balance exactly the amounts settled. */
  lemma {:induction false} CacheLag(wallets: map<string, Wallet>, models: map<string, int>, hs: seq<Happening>, u: string, m: string)
    ensures UserLags(After(wallets, models, hs), u, ChangedSince(hs, u), SettledSince(hs, u))
    ensures ModelCurrent(After(wallets, models, hs), m)
  {
    if hs != [] {
      var n := |hs| - 1;
      CacheLag(wallets, models, hs[..n], u, m);
      UserStep(After(wallets, models, hs[..n]), hs[n], u, ChangedSince(hs[..n], u), SettledSince(hs[..n], u));
      ModelStep(After(wallets, models, hs[..n]), hs[n], m);
    }
  }

  lemma AfterOne(wallets: map<string, Wallet>, models: map<string, int>, hs: seq<Happening>, h: Happening)
    ensures After(wallets, models, hs + [h]) == Happen(After(wallets, models, hs), h)
  {
    assert (hs + [h])[..|hs|] == hs;
  }

  /** A hold, an award and a settle: the cached available balance misses the award, and the
      cached escrow balance is too high by the amount settled. */
  lemma LagReached(u: string, m: string, amount: int, award: int)
    ensures var w := After(map[], map[], [Hold(u, amount, 0), Direct(u, award), Settle(u, m, amount, 1)]);
            && WalletOf(w, u) == Wallet(award - amount, 0) && CacheKey(u, User) in w.cache
            && w.cache[CacheKey(u, User)].available == -amount && w.cache[CacheKey(u, User)].escrow == Some(amount)
  {
    var a, b, c := Hold(u, amount, 0), Direct(u, award), Settle(u, m, amount, 1);
    AfterOne(map[], map[], [], a);
    AfterOne(map[], map[], [] + [a], b);
    AfterOne(map[], map[], [] + [a] + [b], c);
    assert [] + [a] + [b] + [c] == [a, b, c];
    if CacheKey(u, User) == CacheKey(m, Model) {
      KeysDiffer(u, User, m, Model);
    }
  }

  /** An eviction is one of the losses the lag formula allows. */
  lemma EvictionIsLoss(full: Cache, kept: Cache, maxSize: nat)
    requires Evicted(full, kept, maxSize)
    ensures kept == map k | k in full && k in kept.Keys :: full[k]
  {
  }
}
