/** What callers attach to a ledger entry, and what the ledger refuses in it: fields with the
    name of personal data, and texts that hold an email address. */
module Metadata {
  datatype Value = Text(text: string) | Other

  /** The fields are in the order of the object's keys. */
  datatype Field = Field(name: string, value: Value)

  const PERSONAL_NAMES := ["email", "password", "ssn", "creditcard", "phonenumber", "phone"]

  predicate Letter(c: char) { 'a' <= c <= 'z' || 'A' <= c <= 'Z' }

  predicate Digit(c: char) { '0' <= c <= '9' }

  predicate WordChar(c: char) { Letter(c) || Digit(c) || c == '_' }

  predicate LocalChar(c: char) { Letter(c) || Digit(c) || c in "._%+-" }

  predicate DomainChar(c: char) { Letter(c) || Digit(c) || c in ".-" }

  function LowerCase(c: char): char { if 'A' <= c <= 'Z' then c - 'A' + 'a' else c }

  /** The names are equal but for capital letters in the first. */
  predicate SameName(name: string, lower: string) {
    |name| == |lower| && forall k :: 0 <= k < |name| ==> LowerCase(name[k]) == lower[k]
  }

  predicate PersonalName(name: string) {
    exists k :: 0 <= k < |PERSONAL_NAMES| && SameName(name, PERSONAL_NAMES[k])
  }

  /** Capital letters make no difference to which names are refused. */
  lemma CapitalsAreIgnored(a: string, b: string)
    requires |a| == |b| && forall k :: 0 <= k < |a| ==> LowerCase(a[k]) == LowerCase(b[k])
    ensures PersonalName(a) == PersonalName(b)
  {
    if k :| 0 <= k < |PERSONAL_NAMES| && SameName(a, PERSONAL_NAMES[k]) {
      assert SameName(b, PERSONAL_NAMES[k]);
    }
    if k :| 0 <= k < |PERSONAL_NAMES| && SameName(b, PERSONAL_NAMES[k]) {
      assert SameName(a, PERSONAL_NAMES[k]);
    }
  }

  /** A name in small letters is refused exactly when it is one of these six. */
  lemma SixNames(name: string)
    requires forall k :: 0 <= k < |name| ==> !('A' <= name[k] <= 'Z')
    ensures PersonalName(name) <==>
            name in {"email", "password", "ssn", "creditcard", "phonenumber", "phone"}
  {
    if k :| 0 <= k < |PERSONAL_NAMES| && SameName(name, PERSONAL_NAMES[k]) {
      assert name == PERSONAL_NAMES[k];
    }
    if name in {"email", "password", "ssn", "creditcard", "phonenumber", "phone"} {
      var names := PERSONAL_NAMES;
      assert names[0] == "email" && names[1] == "password" && names[2] == "ssn" && names[3] == "creditcard"
             && names[4] == "phonenumber" && names[5] == "phone";
      var k :| 0 <= k < |names| && names[k] == name;
      assert SameName(name, PERSONAL_NAMES[k]);
    }
  }

  /** A word begins or ends at position `i`. */
  predicate Boundary(s: string, i: nat)
    requires i <= |s|
  {
    (i > 0 && WordChar(s[i - 1])) != (i < |s| && WordChar(s[i]))
  }

  /** An address from `a` to `r`, its '@' at `p` and its last dot at `q`: local characters,
      then domain characters, then at least two letters, with word boundaries around it. */
  predicate AddressAt(s: string, a: nat, p: nat, q: nat, r: nat) {
    && a < p && p + 1 < q && q + 2 < r <= |s|
    && Boundary(s, a) && Boundary(s, r) && s[p] == '@' && s[q] == '.'
    && (forall k :: a <= k < p ==> LocalChar(s[k]))
    && (forall k :: p < k < q ==> DomainChar(s[k]))
    && (forall k :: q < k < r ==> Letter(s[k]))
  }

  predicate HasAddress(s: string) {
    exists r, q, p, a :: 0 <= r <= |s| && 0 <= q < r && 0 <= p < q && 0 <= a < p && AddressAt(s, a, p, q, r)
  }

  predicate RefusedField(f: Field) { PersonalName(f.name) || (f.value.Text? && HasAddress(f.value.text)) }

  predicate Refused(metadata: seq<Field>) { exists k :: 0 <= k < |metadata| && RefusedField(metadata[k]) }

  /** `t` holds `s` from position `n` on, between two characters that are part of no word. */
  predicate SetOff(t: string, n: nat, s: string) {
    && 0 < n && n + |s| < |t| && !WordChar(t[n - 1]) && !WordChar(t[n + |s|])
    && forall k :: n <= k < n + |s| ==> t[k] == s[k - n]
  }

  lemma BoundaryShifts(t: string, n: nat, s: string, i: nat)
    requires SetOff(t, n, s) && i <= |s|
    ensures Boundary(t, n + i) == Boundary(s, i)
  {
  }

  lemma AddressShifts(t: string, n: nat, s: string, a: nat, p: nat, q: nat, r: nat)
    requires SetOff(t, n, s) && AddressAt(s, a, p, q, r)
    ensures AddressAt(t, n + a, n + p, n + q, n + r)
  {
    BoundaryShifts(t, n, s, a);
    BoundaryShifts(t, n, s, r);
  }

  /** An address is found wherever it stands in a text, set off by spaces. */
  lemma AddressInText(before: string, s: string, after: string)
    requires HasAddress(s)
    ensures HasAddress(before + " " + s + " " + after)
  {
    var r, q, p, a :| 0 <= r <= |s| && 0 <= q < r && 0 <= p < q && 0 <= a < p && AddressAt(s, a, p, q, r);
    var t, n := before + " " + s + " " + after, |before| + 1;
    assert SetOff(t, n, s);
    AddressShifts(t, n, s, a, p, q, r);
  }

  /** A short example of one. */
  lemma ShortAddress()
    ensures HasAddress("a@b.com")
  {
    assert AddressAt("a@b.com", 0, 1, 3, 7);
  }

  /** Without an '@' that a dot and two more characters follow, a text holds no address. */
  lemma NoAddress(s: string)
    requires forall k, l :: 0 <= k < l < |s| && s[k] == '@' && s[l] == '.' ==> |s| < l + 3
    ensures !HasAddress(s)
  {
  }

  /** The check of an entry's metadata, field by field. */
  method Check(metadata: seq<Field>) returns (refused: bool)
    ensures refused == Refused(metadata)
  {
    for i := 0 to |metadata|
      invariant forall k :: 0 <= k < i ==> !RefusedField(metadata[k])
    {
      if RefusedField(metadata[i]) {
        return true;
      }
    }
    return false;
  }
}
