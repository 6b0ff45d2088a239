/** Finite sums over sequences and over sets of keys, with the update laws the
    accounting proofs need. */
module Sums {

  ghost function SeqSum<T(!new)>(s: seq<T>, f: T -> int): int
  {
    if s == [] then 0 else SeqSum(s[..|s| - 1], f) + f(s[|s| - 1])
  }

  lemma SeqSumAppend<T(!new)>(s: seq<T>, x: T, f: T -> int)
    ensures SeqSum(s + [x], f) == SeqSum(s, f) + f(x)
  {
    assert (s + [x])[..|s|] == s;
  }

  lemma {:induction false} SeqSumUpdate<T(!new)>(s: seq<T>, i: nat, x: T, f: T -> int)
    requires i < |s|
    ensures SeqSum(s[i := x], f) == SeqSum(s, f) - f(s[i]) + f(x)
  {
    var n := |s| - 1;
    if i == n {
      assert s[i := x][..n] == s[..n];
    } else {
      assert s[i := x][..n] == s[..n][i := x];
      SeqSumUpdate(s[..n], i, x, f);
    }
  }

  lemma {:induction false} SeqSumAgree<T(!new)>(s: seq<T>, f: T -> int, g: T -> int)
    requires forall k :: 0 <= k < |s| ==> f(s[k]) == g(s[k])
    ensures SeqSum(s, f) == SeqSum(s, g)
  {
    if s != [] {
      SeqSumAgree(s[..|s| - 1], f, g);
    }
  }

  /** Sums are additive in the summand. */
  lemma {:induction false} SeqSumPlus<T(!new)>(s: seq<T>, f: T -> int, g: T -> int, h: T -> int)
    requires forall k :: 0 <= k < |s| ==> h(s[k]) == f(s[k]) + g(s[k])
    ensures SeqSum(s, h) == SeqSum(s, f) + SeqSum(s, g)
  {
    if s != [] {
      SeqSumPlus(s[..|s| - 1], f, g, h);
    }
  }

  lemma {:induction false} SeqSumNonNegative<T(!new)>(s: seq<T>, f: T -> int)
    requires forall k :: 0 <= k < |s| ==> f(s[k]) >= 0
    ensures SeqSum(s, f) >= 0
  {
    if s != [] {
      SeqSumNonNegative(s[..|s| - 1], f);
    }
  }

  lemma SeqSumPositive<T(!new)>(s: seq<T>, i: nat, f: T -> int)
    requires i < |s| && f(s[i]) > 0
    requires forall k :: 0 <= k < |s| ==> f(s[k]) >= 0
    ensures SeqSum(s, f) > 0
    decreases |s|
  {
    var n := |s| - 1;
    if i < n {
      SeqSumPositive(s[..n], i, f);
    } else {
      SeqSumNonNegative(s[..n], f);
    }
  }

  lemma {:induction false} SeqSumZero<T(!new)>(s: seq<T>, f: T -> int)
    requires forall k :: 0 <= k < |s| ==> f(s[k]) == 0
    ensures SeqSum(s, f) == 0
  {
    if s != [] {
      SeqSumZero(s[..|s| - 1], f);
    }
  }

  ghost function SetSum<K(!new)>(keys: set<K>, f: K -> int): int
    decreases |keys|
  {
    if keys == {} then 0
    else
      var k :| k in keys;
      f(k) + SetSum(keys - {k}, f)
  }

  lemma {:induction false} SetSumRemove<K(!new)>(keys: set<K>, k: K, f: K -> int)
    requires k in keys
    ensures SetSum(keys, f) == f(k) + SetSum(keys - {k}, f)
    decreases |keys|
  {
    var c :| c in keys && SetSum(keys, f) == f(c) + SetSum(keys - {c}, f);
    if c != k {
      SetSumRemove(keys - {c}, k, f);
      SetSumRemove(keys - {k}, c, f);
      assert keys - {c} - {k} == keys - {k} - {c};
    }
  }

  lemma SetSumInsert<K(!new)>(keys: set<K>, k: K, f: K -> int)
    requires k !in keys
    ensures SetSum(keys + {k}, f) == SetSum(keys, f) + f(k)
  {
    SetSumRemove(keys + {k}, k, f);
    assert keys + {k} - {k} == keys;
  }

  lemma {:induction false} SetSumAgree<K(!new)>(keys: set<K>, f: K -> int, g: K -> int)
    requires forall k :: k in keys ==> f(k) == g(k)
    ensures SetSum(keys, f) == SetSum(keys, g)
    decreases |keys|
  {
    if keys != {} {
      var k :| k in keys;
      SetSumRemove(keys, k, f);
      SetSumRemove(keys, k, g);
      SetSumAgree(keys - {k}, f, g);
    }
  }

  /** Changing the summand at one key only. */
  lemma SetSumChange<K(!new)>(keys: set<K>, k: K, f: K -> int, g: K -> int)
    requires k in keys
    requires forall x :: x in keys && x != k ==> f(x) == g(x)
    ensures SetSum(keys, g) == SetSum(keys, f) - f(k) + g(k)
  {
    SetSumRemove(keys, k, f);
    SetSumRemove(keys, k, g);
    SetSumAgree(keys - {k}, f, g);
  }

  lemma {:induction false} SetSumNonNegative<K(!new)>(keys: set<K>, f: K -> int)
    requires forall k :: k in keys ==> f(k) >= 0
    ensures SetSum(keys, f) >= 0
    decreases |keys|
  {
    if keys != {} {
      var k :| k in keys;
      SetSumRemove(keys, k, f);
      SetSumNonNegative(keys - {k}, f);
    }
  }

  lemma {:induction false} SetSumZero<K(!new)>(keys: set<K>, f: K -> int)
    requires forall k :: k in keys ==> f(k) == 0
    ensures SetSum(keys, f) == 0
    decreases |keys|
  {
    if keys != {} {
      var k :| k in keys;
      SetSumRemove(keys, k, f);
      SetSumZero(keys - {k}, f);
    }
  }
}
