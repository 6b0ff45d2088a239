/** Order-independent serialisation of stored results: the tokens fed to the hash. */
module Canonical {

  datatype Json =
    | Null
    | Bool(b: bool)
    | Number(n: int)
    | Text(s: string)
    | Array(items: seq<Json>)
    | Object(members: seq<Member>)

  datatype Member = Member(key: string, value: Json)

  /** Separators are fixed by the tokens around them and are left out. */
  datatype Token = Open | Close | ArrayOpen | ArrayClose | Name(key: string) | Atom(value: Json)

  // --------------------------------------------------------------------- key order

  /** Lexicographic order of strings, as the default array sort compares them. */
  predicate Lex(a: string, b: string) {
    if b == [] then false
    else if a == [] then true
    else a[0] < b[0] || (a[0] == b[0] && Lex(a[1..], b[1..]))
  }

  predicate Digit(c: char) { '0' <= c <= '9' }

  /** An array index: a canonical decimal below 2^32 - 1. Objects list such keys first,
      in numeric order, whatever the order of insertion. */
  predicate IndexLike(k: string) {
    && k != [] && (forall i :: 0 <= i < |k| ==> Digit(k[i])) && (|k| > 1 ==> k[0] != '0')
    && (|k| < 10 || (|k| == 10 && Lex(k, "4294967295")))
  }

  /** The order in which an object built from sorted keys lists them. */
  predicate KeyBefore(a: string, b: string) {
    if IndexLike(a) && IndexLike(b) then |a| < |b| || (|a| == |b| && Lex(a, b))
    else if IndexLike(a) || IndexLike(b) then IndexLike(a)
    else Lex(a, b)
  }

  lemma {:induction false} LexTotal(a: string, b: string)
    ensures Lex(a, b) || Lex(b, a) || a == b
    ensures !(Lex(a, b) && Lex(b, a)) && !Lex(a, a)
  {
    if a != [] && b != [] && a[0] == b[0] {
      LexTotal(a[1..], b[1..]);
      assert a == [a[0]] + a[1..] && b == [b[0]] + b[1..];
    }
    if a != [] {
      LexIrreflexive(a);
    }
  }

  lemma {:induction false} LexIrreflexive(a: string)
    ensures !Lex(a, a)
  {
    if a != [] {
      LexIrreflexive(a[1..]);
    }
  }

  lemma {:induction false} LexTransitive(a: string, b: string, c: string)
    requires Lex(a, b) && Lex(b, c)
    ensures Lex(a, c)
  {
    if a != [] && a[0] == b[0] == c[0] {
      LexTransitive(a[1..], b[1..], c[1..]);
    }
  }

  lemma KeyTotal(a: string, b: string)
    ensures KeyBefore(a, b) || KeyBefore(b, a) || a == b
    ensures !(KeyBefore(a, b) && KeyBefore(b, a)) && !KeyBefore(a, a)
  {
    LexTotal(a, b);
    LexIrreflexive(a);
  }

  lemma KeyTransitive(a: string, b: string, c: string)
    requires KeyBefore(a, b) && KeyBefore(b, c)
    ensures KeyBefore(a, c)
  {
    if Lex(a, b) && Lex(b, c) {
      LexTransitive(a, b, c);
    }
  }

  /** At the first position where the strings differ `a` has the smaller character, or it
      ends there and `b` goes on. */
  predicate Smaller(a: string, b: string, i: nat) {
    && i <= |a| && i < |b| && a[..i] == b[..i]
    && (i == |a| || a[i] < b[i])
  }

  lemma {:induction false} LexExactly(a: string, b: string)
    ensures Lex(a, b) <==> exists i :: 0 <= i <= |a| && Smaller(a, b, i)
  {
    if a == [] {
      assert b != [] ==> Smaller(a, b, 0);
    } else if b != [] {
      LexExactly(a[1..], b[1..]);
      if i :| 0 <= i <= |a[1..]| && a[0] == b[0] && Smaller(a[1..], b[1..], i) {
        assert a[..i + 1] == [a[0]] + a[1..][..i] && b[..i + 1] == [b[0]] + b[1..][..i];
        assert Smaller(a, b, i + 1);
      }
      if a[0] < b[0] { assert Smaller(a, b, 0); }
      if i :| 0 < i <= |a| && Smaller(a, b, i) {
        assert a[1..][..i - 1] == a[..i][1..] && b[1..][..i - 1] == b[..i][1..];
        assert a[0] == a[..i][0] == b[..i][0] == b[0];
        assert Smaller(a[1..], b[1..], i - 1);
      }
    }
  }

  // ------------------------------------------------------------------ index-like keys

  ghost predicate Digits(k: string) { forall i :: 0 <= i < |k| ==> Digit(k[i]) }

  /** A decimal without superfluous zeros. */
  ghost predicate Decimal(k: string) { k != [] && Digits(k) && (|k| > 1 ==> k[0] != '0') }

  /** The number read on from `n`. */
  function Read(n: nat, k: string): nat
    requires Digits(k)
    decreases |k|
  {
    if k == [] then n else Read(10 * n + (k[0] - '0') as nat, k[1..])
  }

  lemma {:induction false} ReadLess(m: nat, a: string, n: nat, b: string)
    requires Digits(a) && Digits(b) && |a| == |b| && m < n
    ensures Read(m, a) < Read(n, b)
    decreases |a|
  {
    if a != [] {
      ReadLess(10 * m + (a[0] - '0') as nat, a[1..], 10 * n + (b[0] - '0') as nat, b[1..]);
    }
  }

  lemma {:induction false} ReadLex(n: nat, a: string, b: string)
    requires Digits(a) && Digits(b) && |a| == |b|
    ensures Read(n, a) < Read(n, b) <==> Lex(a, b)
    decreases |a|
  {
    if a != [] {
      var (x, y) := ((a[0] - '0') as nat, (b[0] - '0') as nat);
      if x < y {
        ReadLess(10 * n + x, a[1..], 10 * n + y, b[1..]);
      } else if y < x {
        ReadLess(10 * n + y, b[1..], 10 * n + x, a[1..]);
      } else {
        ReadLex(10 * n + x, a[1..], b[1..]);
      }
    }
  }

  lemma {:induction false} ReadLonger(m: nat, a: string, n: nat, b: string)
    requires Digits(a) && Digits(b) && |a| <= |b| && m < n
    ensures Read(m, a) < Read(n, b)
    decreases |b|
  {
    if |a| == |b| {
      ReadLess(m, a, n, b);
    } else {
      ReadLonger(m, a, 10 * n + (b[0] - '0') as nat, b[1..]);
    }
  }

  /** Two decimals compare as numbers exactly when the shorter comes first and equally long
      ones compare as strings. */
  lemma DecimalOrder(a: string, b: string)
    requires Decimal(a) && Decimal(b)
    ensures Read(0, a) < Read(0, b) <==> |a| < |b| || (|a| == |b| && Lex(a, b))
  {
    if |a| == |b| {
      ReadLex(0, a, b);
    } else if |a| < |b| {
      ReadLonger(0, a, (b[0] - '0') as nat, b[1..]);
    } else {
      ReadLonger(0, b, (a[0] - '0') as nat, a[1..]);
    }
  }

  lemma ReadOne(n: nat, k: string, c: char, rest: string)
    requires Digits(k) && Digits(rest) && Digit(c) && k == [c] + rest
    ensures Read(n, k) == Read(10 * n + (c - '0') as nat, rest)
  {
    assert k[1..] == rest;
  }

  lemma {:induction false} ReadBoth(n: nat, a: string, b: string)
    requires Digits(a) && Digits(b)
    ensures Read(n, a + b) == Read(Read(n, a), b)
    decreases |a|
  {
    if a == [] {
      assert a + b == b;
    } else {
      ReadOne(n, a + b, a[0], a[1..] + b);
      ReadBoth(10 * n + (a[0] - '0') as nat, a[1..], b);
    }
  }

  lemma MaxIndexStart()
    ensures Read(0, "42949") == 42949
  {
    ReadOne(0, "42949", '4', "2949");
    ReadOne(4, "2949", '2', "949");
    ReadOne(42, "949", '9', "49");
    ReadOne(429, "49", '4', "9");
    ReadOne(4294, "9", '9', "");
  }

  lemma MaxIndexEnd()
    ensures Read(42949, "67295") == 4294967295
  {
    ReadOne(42949, "67295", '6', "7295");
    ReadOne(429496, "7295", '7', "295");
    ReadOne(4294967, "295", '2', "95");
    ReadOne(42949672, "95", '9', "5");
    ReadOne(429496729, "5", '5', "");
  }

  lemma MaxIndex()
    ensures Decimal("4294967295") && Read(0, "4294967295") == 4294967295
  {
    MaxIndexStart();
    MaxIndexEnd();
    ReadBoth(0, "42949", "67295");
    assert "4294967295" == "42949" + "67295";
  }

  /** A key is index-like exactly when it is a decimal below 2^32 - 1. */
  lemma IndexExactly(k: string)
    ensures IndexLike(k) <==> Decimal(k) && Read(0, k) < 4294967295
  {
    if Decimal(k) {
      MaxIndex();
      DecimalOrder(k, "4294967295");
    }
  }

  /** The order of an object's keys: index-like ones first, by number, and then the others,
      as strings. */
  lemma KeyOrder(a: string, b: string)
    ensures IndexLike(a) && IndexLike(b) ==> (KeyBefore(a, b) <==> Read(0, a) < Read(0, b))
    ensures IndexLike(a) != IndexLike(b) ==> (KeyBefore(a, b) <==> IndexLike(a))
    ensures !IndexLike(a) && !IndexLike(b) ==> (KeyBefore(a, b) <==> exists i :: 0 <= i <= |a| && Smaller(a, b, i))
  {
    LexExactly(a, b);
    if IndexLike(a) && IndexLike(b) {
      DecimalOrder(a, b);
    }
  }

  // ------------------------------------------------------------------ serialisation

  function Insert(m: Member, ms: seq<Member>): seq<Member> {
    if ms == [] then [m]
    else if KeyBefore(m.key, ms[0].key) then [m] + ms
    else [ms[0]] + Insert(m, ms[1..])
  }

  /** Assigning the key "__proto__" on a plain object creates no member. */
  function Sort(ms: seq<Member>): seq<Member> {
    if ms == [] then []
    else if ms[0].key == "__proto__" then Sort(ms[1..])
    else Insert(ms[0], Sort(ms[1..]))
  }

  /** The value the replacer makes of a value, at every depth: arrays keep their order,
      objects are rebuilt from their sorted keys. */
  function Stable(j: Json): Json
    decreases j, 0
  {
    match j
    case Array(items) => Array(StableItems(items))
    case Object(members) => Object(Sort(StableMembers(members)))
    case _ => j
  }

  function StableItems(items: seq<Json>): (r: seq<Json>)
    ensures |r| == |items|
    decreases items, 1
  {
    if items == [] then [] else [Stable(items[0])] + StableItems(items[1..])
  }

  function StableMembers(ms: seq<Member>): (r: seq<Member>)
    ensures |r| == |ms|
    decreases ms, 1
  {
    if ms == [] then [] else [Member(ms[0].key, Stable(ms[0].value))] + StableMembers(ms[1..])
  }

  function Tokens(j: Json): seq<Token>
    decreases j, 0
  {
    match j
    case Array(items) => [ArrayOpen] + ItemTokens(items) + [ArrayClose]
    case Object(members) => [Open] + MemberTokens(members) + [Close]
    case _ => [Atom(j)]
  }

  function ItemTokens(items: seq<Json>): seq<Token>
    decreases items, 1
  {
    if items == [] then [] else Tokens(items[0]) + ItemTokens(items[1..])
  }

  function MemberTokens(ms: seq<Member>): seq<Token>
    decreases ms, 1
  {
    if ms == [] then [] else [Name(ms[0].key)] + Tokens(ms[0].value) + MemberTokens(ms[1..])
  }

  /** What is hashed. */
  function HashInput(j: Json): seq<Token> { Tokens(Stable(j)) }

  // -------------------------------------------------------- equality up to key order

  ghost predicate UniqueKeys(ms: seq<Member>) {
    forall i, j :: 0 <= i < j < |ms| ==> ms[i].key != ms[j].key
  }

  /** No object has the same key twice, at any depth. */
  ghost predicate Valid(j: Json)
    decreases j
  {
    match j
    case Array(items) => forall i :: 0 <= i < |items| ==> Valid(items[i])
    case Object(members) => UniqueKeys(members) && forall i :: 0 <= i < |members| ==> Valid(members[i].value)
    case _ => true
  }

  ghost predicate HasKey(ms: seq<Member>, k: string) { exists i :: 0 <= i < |ms| && ms[i].key == k }

  /** Equal up to the order of object keys at every depth, array order kept; a member
      named "__proto__" does not count. */
  ghost predicate SameValue(a: Json, b: Json)
    decreases a
  {
    match a
    case Array(items) =>
      b.Array? && |items| == |b.items| && forall i :: 0 <= i < |items| ==> SameValue(items[i], b.items[i])
    case Object(members) =>
      && b.Object?
      && (forall k :: k != "__proto__" ==> (HasKey(members, k) <==> HasKey(b.members, k)))
      && (forall i, j | 0 <= i < |members| && 0 <= j < |b.members| && members[i].key == b.members[j].key != "__proto__" ::
            SameValue(members[i].value, b.members[j].value))
    case _ => a == b
  }

  // -------------------------------------------------------- tokens determine a value

  lemma {:induction false} TokensInjective(a: Json, b: Json, p: seq<Token>, q: seq<Token>)
    requires Tokens(a) + p == Tokens(b) + q
    ensures a == b && p == q
    decreases a, 0
  {
    var s, t := Tokens(a) + p, Tokens(b) + q;
    assert s[0] == t[0];
    match a
    case Array(items) =>
      assert s[1..] == ItemTokens(items) + ([ArrayClose] + p);
      assert t[1..] == ItemTokens(b.items) + ([ArrayClose] + q);
      ItemTokensInjective(items, b.items, p, q);
    case Object(members) =>
      assert s[1..] == MemberTokens(members) + ([Close] + p);
      assert t[1..] == MemberTokens(b.members) + ([Close] + q);
      MemberTokensInjective(members, b.members, p, q);
    case _ =>
      assert s[1..] == p && t[1..] == q;
  }

  lemma FirstToken(j: Json)
    ensures |Tokens(j)| > 0
    ensures !Tokens(j)[0].Close? && !Tokens(j)[0].ArrayClose? && !Tokens(j)[0].Name?
  {
  }

  lemma {:induction false} ItemTokensInjective(a: seq<Json>, b: seq<Json>, p: seq<Token>, q: seq<Token>)
    requires ItemTokens(a) + ([ArrayClose] + p) == ItemTokens(b) + ([ArrayClose] + q)
    ensures a == b && p == q
    decreases a, 1
  {
    if a != [] { FirstToken(a[0]); }
    if b != [] { FirstToken(b[0]); }
    var s, t := ItemTokens(a) + ([ArrayClose] + p), ItemTokens(b) + ([ArrayClose] + q);
    assert s[0] == t[0];
    if a == [] || b == [] {
      assert s[1..] == p && t[1..] == q;
    } else {
      assert s == Tokens(a[0]) + (ItemTokens(a[1..]) + ([ArrayClose] + p));
      assert t == Tokens(b[0]) + (ItemTokens(b[1..]) + ([ArrayClose] + q));
      TokensInjective(a[0], b[0], ItemTokens(a[1..]) + ([ArrayClose] + p), ItemTokens(b[1..]) + ([ArrayClose] + q));
      ItemTokensInjective(a[1..], b[1..], p, q);
      assert a == [a[0]] + a[1..] && b == [b[0]] + b[1..];
    }
  }

  lemma MemberTokensSplit(ms: seq<Member>, p: seq<Token>)
    requires ms != []
    ensures MemberTokens(ms) + ([Close] + p)
            == [Name(ms[0].key)] + (Tokens(ms[0].value) + (MemberTokens(ms[1..]) + ([Close] + p)))
  {
  }

  lemma {:induction false} MemberTokensInjective(a: seq<Member>, b: seq<Member>, p: seq<Token>, q: seq<Token>)
    requires MemberTokens(a) + ([Close] + p) == MemberTokens(b) + ([Close] + q)
    ensures a == b && p == q
    decreases a, 1
  {
    var s, t := MemberTokens(a) + ([Close] + p), MemberTokens(b) + ([Close] + q);
    if a != [] { MemberTokensSplit(a, p); }
    if b != [] { MemberTokensSplit(b, q); }
    assert s[0] == t[0];
    if a == [] || b == [] {
      assert s[1..] == p && t[1..] == q;
    } else {
      assert s[1..] == t[1..];
      TokensInjective(a[0].value, b[0].value, MemberTokens(a[1..]) + ([Close] + p), MemberTokens(b[1..]) + ([Close] + q));
      MemberTokensInjective(a[1..], b[1..], p, q);
      assert a == [a[0]] + a[1..] && b == [b[0]] + b[1..];
    }
  }

  // -------------------------------------------------------------- sorting is canonical

  ghost predicate Sorted(ms: seq<Member>) {
    forall i, j :: 0 <= i < j < |ms| ==> KeyBefore(ms[i].key, ms[j].key)
  }

  lemma {:induction false} InsertElements(m: Member, ms: seq<Member>, x: Member)
    ensures x in Insert(m, ms) <==> x == m || x in ms
  {
    if ms != [] && !KeyBefore(m.key, ms[0].key) {
      InsertElements(m, ms[1..], x);
      assert ms == [ms[0]] + ms[1..];
    }
  }

  lemma {:induction false} InsertSorted(m: Member, ms: seq<Member>)
    requires Sorted(ms) && !HasKey(ms, m.key)
    ensures Sorted(Insert(m, ms))
  {
    if ms != [] {
      KeyTotal(m.key, ms[0].key);
      if KeyBefore(m.key, ms[0].key) {
        forall j | 0 <= j < |ms| ensures KeyBefore(m.key, ms[j].key) {
          if j > 0 { KeyTransitive(m.key, ms[0].key, ms[j].key); }
        }
      } else {
        assert !HasKey(ms[1..], m.key);
        InsertSorted(m, ms[1..]);
        assert ms[0].key != m.key;
        var rest := Insert(m, ms[1..]);
        forall j | 0 <= j < |rest| ensures KeyBefore(ms[0].key, rest[j].key) {
          InsertElements(m, ms[1..], rest[j]);
        }
      }
    }
  }

  lemma {:induction false} SortElements(ms: seq<Member>, x: Member)
    ensures x in Sort(ms) <==> x in ms && x.key != "__proto__"
  {
    if ms != [] {
      SortElements(ms[1..], x);
      assert ms == [ms[0]] + ms[1..];
      if ms[0].key != "__proto__" {
        InsertElements(ms[0], Sort(ms[1..]), x);
      }
    }
  }

  lemma {:induction false} SortSorted(ms: seq<Member>)
    requires UniqueKeys(ms)
    ensures Sorted(Sort(ms))
  {
    if ms != [] {
      SortSorted(ms[1..]);
      if HasKey(Sort(ms[1..]), ms[0].key) {
        var i :| 0 <= i < |Sort(ms[1..])| && Sort(ms[1..])[i].key == ms[0].key;
        SortElements(ms[1..], Sort(ms[1..])[i]);
      } else if ms[0].key != "__proto__" {
        InsertSorted(ms[0], Sort(ms[1..]));
      }
    }
  }

  lemma HeadOnce(ms: seq<Member>)
    requires Sorted(ms) && ms != []
    ensures ms[0] !in ms[1..]
  {
    forall j | 0 < j < |ms| ensures ms[j] != ms[0] { KeyTotal(ms[0].key, ms[j].key); }
  }

  lemma {:induction false} SortedUnique(a: seq<Member>, b: seq<Member>)
    requires Sorted(a) && Sorted(b) && forall x :: x in a <==> x in b
    ensures a == b
  {
    assert (a != [] ==> a[0] in a) && (b != [] ==> b[0] in b);
    if a != [] && b != [] {
      KeyTotal(a[0].key, b[0].key);
      assert a[0] == b[0];
      HeadOnce(a);
      HeadOnce(b);
      forall x ensures x in a[1..] <==> x in b[1..] {
        assert x in a <==> x == a[0] || x in a[1..];
        assert x in b <==> x == b[0] || x in b[1..];
      }
      SortedUnique(a[1..], b[1..]);
      assert a == [a[0]] + a[1..] && b == [b[0]] + b[1..];
    }
  }

  /** Two objects sort to the same members exactly when they have the same members. */
  lemma SortCanonical(a: seq<Member>, b: seq<Member>)
    requires UniqueKeys(a) && UniqueKeys(b)
    ensures Sort(a) == Sort(b) <==> Included(a, b) && Included(b, a)
  {
    SortSorted(a);
    SortSorted(b);
    forall x ensures x in Sort(a) <==> x in a && x.key != "__proto__" { SortElements(a, x); }
    forall x ensures x in Sort(b) <==> x in b && x.key != "__proto__" { SortElements(b, x); }
    if Included(a, b) && Included(b, a) {
      SortedUnique(Sort(a), Sort(b));
    }
    if Sort(a) == Sort(b) {
      forall x: Member | x.key != "__proto__" ensures x in a <==> x in b { assert x in Sort(a) <==> x in Sort(b); }
    }
  }

  /** The sorted form lists its members in that order. */
  lemma SortLists(ms: seq<Member>, i: nat, j: nat)
    requires UniqueKeys(ms) && i < j < |Sort(ms)|
    ensures var (a, b) := (Sort(ms)[i].key, Sort(ms)[j].key);
            if IndexLike(a) && IndexLike(b) then Read(0, a) < Read(0, b)
            else if IndexLike(a) || IndexLike(b) then IndexLike(a)
            else exists k :: 0 <= k <= |a| && Smaller(a, b, k)
  {
    SortSorted(ms);
    KeyOrder(Sort(ms)[i].key, Sort(ms)[j].key);
  }

  // ---------------------------------------------------------------------- main result

  lemma {:induction false} StableMemberAt(ms: seq<Member>, i: nat)
    requires i < |ms|
    ensures StableMembers(ms)[i] == Member(ms[i].key, Stable(ms[i].value))
  {
    if i > 0 {
      StableMemberAt(ms[1..], i - 1);
    }
  }

  lemma {:induction false} StableItemAt(items: seq<Json>, i: nat)
    requires i < |items|
    ensures StableItems(items)[i] == Stable(items[i])
  {
    if i > 0 {
      StableItemAt(items[1..], i - 1);
    }
  }

  ghost predicate Agreeing(a: seq<Member>, b: seq<Member>) {
    forall i, j | 0 <= i < |a| && 0 <= j < |b| ::
      Stable(a[i].value) == Stable(b[j].value) <==> SameValue(a[i].value, b[j].value)
  }

  /** Every member of `a` that counts is a member of `b`. */
  ghost predicate Included(a: seq<Member>, b: seq<Member>) {
    forall x: Member :: x.key != "__proto__" && x in a ==> x in b
  }

  lemma StableMember(ms: seq<Member>)
    ensures forall i :: 0 <= i < |ms| ==> StableMembers(ms)[i] == Member(ms[i].key, Stable(ms[i].value))
  {
    forall i | 0 <= i < |ms| ensures StableMembers(ms)[i] == Member(ms[i].key, Stable(ms[i].value)) {
      StableMemberAt(ms, i);
    }
  }

  /** A counted member of `a` has its counterpart in `b`. */
  lemma Counterpart(a: seq<Member>, b: seq<Member>, i: nat) returns (j: nat)
    requires i < |a| && a[i].key != "__proto__" && Included(StableMembers(a), StableMembers(b))
    ensures j < |b| && b[j].key == a[i].key && Stable(b[j].value) == Stable(a[i].value)
  {
    StableMember(a);
    StableMember(b);
    assert StableMembers(a)[i] in StableMembers(b);
    j :| 0 <= j < |b| && StableMembers(b)[j] == StableMembers(a)[i];
  }

  lemma IncludedKeys(a: seq<Member>, b: seq<Member>, k: string)
    requires Included(StableMembers(a), StableMembers(b)) && k != "__proto__" && HasKey(a, k)
    ensures HasKey(b, k)
  {
    var i :| 0 <= i < |a| && a[i].key == k;
    var j := Counterpart(a, b, i);
  }

  lemma IncludedThenSame(a: seq<Member>, b: seq<Member>)
    requires UniqueKeys(b) && Agreeing(a, b)
    requires Included(StableMembers(a), StableMembers(b)) && Included(StableMembers(b), StableMembers(a))
    ensures SameValue(Object(a), Object(b))
  {
    forall k | k != "__proto__" ensures HasKey(a, k) <==> HasKey(b, k) {
      if HasKey(a, k) { IncludedKeys(a, b, k); }
      if HasKey(b, k) { IncludedKeys(b, a, k); }
    }
    forall i, j | 0 <= i < |a| && 0 <= j < |b| && a[i].key == b[j].key != "__proto__"
      ensures SameValue(a[i].value, b[j].value)
    {
      var l := Counterpart(a, b, i);
      assert l == j;
    }
  }

  lemma SameThenIncluded(a: seq<Member>, b: seq<Member>)
    requires Agreeing(a, b) && SameValue(Object(a), Object(b))
    ensures Included(StableMembers(a), StableMembers(b)) && Included(StableMembers(b), StableMembers(a))
  {
    var sa, sb := StableMembers(a), StableMembers(b);
    StableMember(a);
    StableMember(b);
    forall x: Member | x.key != "__proto__" && x in sa ensures x in sb {
      var i :| 0 <= i < |sa| && sa[i] == x;
      assert HasKey(a, x.key);
      var j :| 0 <= j < |b| && b[j].key == x.key;
      assert sb[j] == x;
    }
    forall x: Member | x.key != "__proto__" && x in sb ensures x in sa {
      var j :| 0 <= j < |sb| && sb[j] == x;
      assert HasKey(b, x.key);
      var i :| 0 <= i < |a| && a[i].key == x.key;
      assert sa[i] == x;
    }
  }

  lemma StableKeys(ms: seq<Member>)
    requires UniqueKeys(ms)
    ensures UniqueKeys(StableMembers(ms))
  {
    forall i | 0 <= i < |ms| ensures StableMembers(ms)[i].key == ms[i].key { StableMemberAt(ms, i); }
  }

  lemma {:induction false} StableIsCanonical(a: Json, b: Json)
    requires Valid(a) && Valid(b)
    ensures Stable(a) == Stable(b) <==> SameValue(a, b)
    decreases a
  {
    if a.Array? && b.Array? {
      forall i | 0 <= i < |a.items| ensures StableItems(a.items)[i] == Stable(a.items[i]) { StableItemAt(a.items, i); }
      forall i | 0 <= i < |b.items| ensures StableItems(b.items)[i] == Stable(b.items[i]) { StableItemAt(b.items, i); }
      forall i | 0 <= i < |a.items| && i < |b.items|
        ensures Stable(a.items[i]) == Stable(b.items[i]) <==> SameValue(a.items[i], b.items[i])
      {
        StableIsCanonical(a.items[i], b.items[i]);
      }
    } else if a.Object? && b.Object? {
      forall i, j | 0 <= i < |a.members| && 0 <= j < |b.members|
        ensures Stable(a.members[i].value) == Stable(b.members[j].value)
                <==> SameValue(a.members[i].value, b.members[j].value)
      {
        StableIsCanonical(a.members[i].value, b.members[j].value);
      }
      if SameValue(a, b) { SameThenIncluded(a.members, b.members); }
      if Included(StableMembers(a.members), StableMembers(b.members))
         && Included(StableMembers(b.members), StableMembers(a.members))
      {
        IncludedThenSame(a.members, b.members);
      }
      StableKeys(a.members);
      StableKeys(b.members);
      SortCanonical(StableMembers(a.members), StableMembers(b.members));
    }
  }

  /** Two results are hashed from the same tokens exactly when they are equal up to the
      order of object keys at every depth. */
  lemma HashInputIsCanonical(a: Json, b: Json)
    requires Valid(a) && Valid(b)
    ensures HashInput(a) == HashInput(b) <==> SameValue(a, b)
  {
    StableIsCanonical(a, b);
    if HashInput(a) == HashInput(b) {
      TokensInjective(Stable(a), Stable(b), [], []);
    }
  }

  // ------------------------------------------------------------------ idempotency scope

  /** The scope string of a tenant's operation. */
  function BuildScope(tenantId: string, operation: string): string { tenantId + ":" + operation }

  predicate HasColon(s: string) { ':' in s }

  /** The scope's last colon is the one `BuildScope` put there. */
  lemma LastColon(t: string, o: string)
    requires !HasColon(o)
    ensures var s := BuildScope(t, o);
            |s| == |t| + 1 + |o| && s[|t|] == ':' && s[..|t|] == t && s[|t| + 1..] == o
            && forall i :: |t| < i < |s| ==> s[i] != ':'
  {
    var s := BuildScope(t, o);
    assert s[|t| + 1..] == o;
    forall i | |t| < i < |s| ensures s[i] != ':' { assert s[i] == o[i - |t| - 1]; }
  }

  /** Operation names without a colon make scopes injective. */
  lemma ScopesDiffer(t1: string, o1: string, t2: string, o2: string)
    requires !HasColon(o1) && !HasColon(o2) && BuildScope(t1, o1) == BuildScope(t2, o2)
    ensures t1 == t2 && o1 == o2
  {
    LastColon(t1, o1);
    LastColon(t2, o2);
  }
}
