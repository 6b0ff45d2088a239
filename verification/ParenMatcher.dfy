/** The CI guard's matching-parenthesis scanner: a character loop with mode flags,
    proved against a lexer that reads one token at a time. */
module ParenMatcher {

  // ------------------------------------------------------------------------ lexer

  predicate Quote(c: char) { c == '\'' || c == '"' || c == '`' }

  predicate PairAt(s: string, i: nat, a: char, b: char) { i + 1 < |s| && s[i] == a && s[i + 1] == b }

  /** Just past the end of the line that `i` is on. */
  function LineEnd(s: string, i: nat): (r: nat)
    ensures r <= |s| && (i <= |s| ==> i <= r)
    decreases |s| - i
  {
    if i >= |s| then |s| else if s[i] == '\n' then i + 1 else LineEnd(s, i + 1)
  }

  /** Just past the first comment terminator at or after `i`. */
  function BlockEnd(s: string, i: nat): (r: nat)
    ensures r <= |s| && (i <= |s| ==> i <= r)
    decreases |s| - i
  {
    if i >= |s| then |s| else if PairAt(s, i, '*', '/') then i + 2 else BlockEnd(s, i + 1)
  }

  /** Just past the first unescaped quote `q` at or after `i`. */
  function StringEnd(s: string, i: nat, q: char): (r: nat)
    ensures r <= |s| && (i <= |s| ==> i <= r)
    decreases |s| - i
  {
    if i >= |s| then |s|
    else if s[i] == '\\' then StringEnd(s, i + 2, q)
    else if s[i] == q then i + 1
    else StringEnd(s, i + 1, q)
  }

  /** A character of code: not the start of a comment or of a string. */
  predicate CodeChar(s: string, i: nat)
    requires i < |s|
  {
    !PairAt(s, i, '/', '/') && !PairAt(s, i, '/', '*') && !Quote(s[i])
  }

  /** The end of the token that starts at `i`. */
  function TokenEnd(s: string, i: nat): (r: nat)
    requires i < |s|
    ensures i < r <= |s|
  {
    if PairAt(s, i, '/', '/') then LineEnd(s, i + 2)
    else if PairAt(s, i, '/', '*') then BlockEnd(s, i + 2)
    else if Quote(s[i]) then StringEnd(s, i + 1, s[i])
    else i + 1
  }

  /** The positions of the code characters, reading tokens from `i` on. */
  function Code(s: string, i: nat): seq<nat>
    decreases |s| - i
  {
    if i >= |s| then []
    else if CodeChar(s, i) then [i] + Code(s, i + 1)
    else Code(s, TokenEnd(s, i))
  }

  lemma {:induction false} CodeInside(s: string, i: nat)
    ensures forall k :: 0 <= k < |Code(s, i)| ==> i <= Code(s, i)[k] < |s|
    ensures forall k, l :: 0 <= k < l < |Code(s, i)| ==> Code(s, i)[k] < Code(s, i)[l]
    decreases |s| - i
  {
    if i < |s| {
      CodeInside(s, if CodeChar(s, i) then i + 1 else TokenEnd(s, i));
    }
  }

  // ---------------------------------------------------------------------- rendering

  /** What a string literal is written with: a character as it is, or one after a backslash. */
  datatype Unit = Raw(c: char) | Escaped(c: char)

  /** What a text is made of: code characters, comments to the end of the line, block
      comments and string literals. */
  datatype Piece = Plain(c: char) | Line(text: string) | Block(text: string) | Literal(quote: char, units: seq<Unit>)

  function Written(us: seq<Unit>): string {
    if us == [] then []
    else (match us[0] case Raw(c) => [c] case Escaped(c) => ['\\', c]) + Written(us[1..])
  }

  function Render(p: Piece): string {
    match p
    case Plain(c) => [c]
    case Line(text) => "//" + text + "\n"
    case Block(text) => "/*" + text + "*/"
    case Literal(q, units) => [q] + Written(units) + [q]
  }

  function RenderAll(ps: seq<Piece>): string {
    if ps == [] then [] else Render(ps[0]) + RenderAll(ps[1..])
  }

  /** The piece is what it says it is: code is no quote, a comment or a literal does not
      contain its own end. */
  ghost predicate Proper(p: Piece) {
    match p
    case Plain(c) => !Quote(c)
    case Line(text) => '\n' !in text
    case Block(text) => forall k: nat :: !PairAt(text, k, '*', '/')
    case Literal(q, units) =>
      Quote(q) && forall k :: 0 <= k < |units| && units[k].Raw? ==> units[k].c != q && units[k].c != '\\'
  }

  /** Every piece is proper, and no slash of code is followed by what would make a comment. */
  ghost predicate ProperAll(ps: seq<Piece>) {
    ps != [] ==>
      && Proper(ps[0])
      && ProperAll(ps[1..])
      && (ps[0] == Plain('/') && ps[1..] != [] ==> Render(ps[1])[0] != '/' && Render(ps[1])[0] != '*')
  }

  /** The positions of the code pieces in a text that starts at `at`. */
  function PlainPositions(ps: seq<Piece>, at: nat): seq<nat> {
    if ps == [] then []
    else (if ps[0].Plain? then [at] else []) + PlainPositions(ps[1..], at + |Render(ps[0])|)
  }

  /** The text goes on at `i` with this. */
  predicate Has(s: string, i: nat, t: string) { i + |t| <= |s| && s[i..i + |t|] == t }

  lemma HasParts(s: string, i: nat, a: string, b: string)
    requires Has(s, i, a + b)
    ensures Has(s, i, a) && Has(s, i + |a|, b)
  {
    var t := s[i..i + |a + b|];
    assert t[..|a|] == a && t[|a|..] == b;
    assert s[i..i + |a|] == t[..|a|] && s[i + |a|..i + |a| + |b|] == t[|a|..];
  }

  lemma {:induction false} LineEndsAt(s: string, i: nat, text: string)
    requires Has(s, i, text + "\n") && '\n' !in text
    ensures LineEnd(s, i) == i + |text| + 1
    decreases |text|
  {
    assert s[i] == (text + "\n")[0];
    if text != [] {
      assert text + "\n" == text[..1] + (text[1..] + "\n");
      HasParts(s, i, text[..1], text[1..] + "\n");
      LineEndsAt(s, i + 1, text[1..]);
    }
  }

  lemma {:induction false} BlockEndsAt(s: string, i: nat, text: string)
    requires Has(s, i, text + "*/") && forall k: nat :: !PairAt(text, k, '*', '/')
    ensures BlockEnd(s, i) == i + |text| + 2
    decreases |text|
  {
    var t := text + "*/";
    assert s[i] == t[0] && s[i + 1] == t[1];
    if text != [] {
      assert !PairAt(text, 0, '*', '/');
      forall k: nat ensures !PairAt(text[1..], k, '*', '/') {
        assert !PairAt(text, k + 1, '*', '/');
      }
      assert t == text[..1] + (text[1..] + "*/");
      HasParts(s, i, text[..1], text[1..] + "*/");
      BlockEndsAt(s, i + 1, text[1..]);
    }
  }

  lemma {:induction false} LiteralEndsAt(s: string, i: nat, q: char, us: seq<Unit>)
    requires Has(s, i, Written(us) + [q]) && Proper(Literal(q, us))
    ensures StringEnd(s, i, q) == i + |Written(us)| + 1
    decreases |us|
  {
    var t := Written(us) + [q];
    assert s[i] == t[0];
    if us != [] {
      var first := match us[0] case Raw(c) => [c] case Escaped(c) => ['\\', c];
      assert t == first + (Written(us[1..]) + [q]);
      HasParts(s, i, first, Written(us[1..]) + [q]);
      LiteralEndsAt(s, i + |first|, q, us[1..]);
    }
  }

  lemma TokenEndsAt(s: string, i: nat, p: Piece)
    requires Has(s, i, Render(p)) && Proper(p) && !p.Plain?
    ensures !CodeChar(s, i) && TokenEnd(s, i) == i + |Render(p)|
  {
    var t := Render(p);
    assert s[i] == t[0] && s[i + 1] == t[1];
    match p
    case Line(text) =>
      assert t == "//" + (text + "\n");
      HasParts(s, i, "//", text + "\n");
      LineEndsAt(s, i + 2, text);
    case Block(text) =>
      assert t == "/*" + (text + "*/");
      HasParts(s, i, "/*", text + "*/");
      BlockEndsAt(s, i + 2, text);
    case Literal(q, units) =>
      assert t == [q] + (Written(units) + [q]);
      HasParts(s, i, [q], Written(units) + [q]);
      LiteralEndsAt(s, i + 1, q, units);
  }

  lemma FirstThenRest(s: string, i: nat, first: string, rest: string)
    requires i <= |s| && s[i..] == first + rest
    ensures i + |first| <= |s| && Has(s, i, first) && s[i + |first|..] == rest
  {
    assert s[i..i + |first|] == s[i..][..|first|] == first;
    assert s[i + |first|..] == s[i..][|first|..] == rest;
  }

  /** In a text put together from code, comments and literals the code characters are exactly
      those of the code pieces: whatever stands in a comment or in a literal, an escaped
      quote included, is none. */
  lemma {:induction false} CodeIsPlain(s: string, i: nat, ps: seq<Piece>)
    requires i <= |s| && s[i..] == RenderAll(ps) && ProperAll(ps)
    ensures Code(s, i) == PlainPositions(ps, i)
    decreases |ps|
  {
    if ps != [] {
      FirstThenRest(s, i, Render(ps[0]), RenderAll(ps[1..]));
      CodeIsPlain(s, i + |Render(ps[0])|, ps[1..]);
      if ps[0].Plain? {
        PlainIsCode(s, i, ps);
      } else {
        TokenEndsAt(s, i, ps[0]);
      }
    }
  }

  lemma PlainIsCode(s: string, i: nat, ps: seq<Piece>)
    requires i <= |s| && s[i..] == RenderAll(ps) && ps != [] && ProperAll(ps) && ps[0].Plain?
    ensures i < |s| && CodeChar(s, i)
  {
    var rest := RenderAll(ps[1..]);
    assert s[i] == s[i..][0] == ps[0].c;
    if i + 1 < |s| {
      assert s[i + 1] == s[i..][1] == rest[0];
      assert rest == Render(ps[1]) + RenderAll(ps[1..][1..]);
      assert rest[0] == Render(ps[1])[0];
    }
  }

  // ------------------------------------------------------------------------- depth

  function Weight(c: char): int { if c == '(' then 1 else if c == ')' then -1 else 0 }

  /** The depth of parentheses after the first `n` code characters. */
  function Depth(s: string, ps: seq<nat>, n: nat): int
    requires n <= |ps| && forall k :: 0 <= k < |ps| ==> ps[k] < |s|
  {
    if n == 0 then 0 else Depth(s, ps, n - 1) + Weight(s[ps[n - 1]])
  }

  function CharsAt(s: string, ps: seq<nat>, n: nat): string
    requires n <= |ps| && forall k :: 0 <= k < |ps| ==> ps[k] < |s|
  {
    if n == 0 then [] else CharsAt(s, ps, n - 1) + [s[ps[n - 1]]]
  }

  function HowOften(t: string, c: char): int { multiset(t)[c] }

  lemma CountsOneMore(t: string, added: char, c: char)
    ensures HowOften(t + [added], c) == HowOften(t, c) + if added == c then 1 else 0
  {
  }

  /** The depth is the number of opening less the number of closing parentheses. */
  lemma {:induction false} DepthCounts(s: string, ps: seq<nat>, n: nat)
    requires n <= |ps| && forall k :: 0 <= k < |ps| ==> ps[k] < |s|
    ensures Depth(s, ps, n) == HowOften(CharsAt(s, ps, n), '(') - HowOften(CharsAt(s, ps, n), ')')
  {
    if n > 0 {
      DepthCounts(s, ps, n - 1);
      CountsOneMore(CharsAt(s, ps, n - 1), s[ps[n - 1]], '(');
      CountsOneMore(CharsAt(s, ps, n - 1), s[ps[n - 1]], ')');
    }
  }

  /** The code character number `n` is a ')' that brings the depth to zero. */
  predicate Closes(s: string, ps: seq<nat>, n: nat)
    requires n < |ps| && forall k :: 0 <= k < |ps| ==> ps[k] < |s|
  {
    s[ps[n]] == ')' && Depth(s, ps, n + 1) == 0
  }

  ghost predicate FirstCloses(s: string, ps: seq<nat>, n: nat)
    requires n < |ps| && forall k :: 0 <= k < |ps| ==> ps[k] < |s|
  {
    Closes(s, ps, n) && forall m :: 0 <= m < n ==> !Closes(s, ps, m)
  }

  /** A stretch of code is balanced: no prefix goes below zero and the whole comes to zero. */
  ghost predicate Balanced(s: string, ps: seq<nat>)
    requires forall k :: 0 <= k < |ps| ==> ps[k] < |s|
  {
    Depth(s, ps, |ps|) == 0 && forall m :: 0 <= m <= |ps| ==> Depth(s, ps, m) >= 0
  }

  // ----------------------------------------------------------------------- scanner

  /** Where the lexer resumes, given the scanner's flags at position `i`. */
  function Resume(s: string, i: nat, inSingle: bool, inDouble: bool, inBacktick: bool, inLine: bool, inBlock: bool): nat {
    if inLine then LineEnd(s, i)
    else if inBlock then BlockEnd(s, i)
    else if inSingle then StringEnd(s, i, '\'')
    else if inDouble then StringEnd(s, i, '"')
    else if inBacktick then StringEnd(s, i, '`')
    else i
  }

  predicate AtMostOne(a: bool, b: bool, c: bool, d: bool, e: bool) {
    (if a then 1 else 0) + (if b then 1 else 0) + (if c then 1 else 0) + (if d then 1 else 0) + (if e then 1 else 0) <= 1
  }

  /** The scanner's mode: at most one of the flags is set. */
  datatype Mode = Mode(inSingle: bool, inDouble: bool, inBacktick: bool, inLine: bool, inBlock: bool)

  predicate Exclusive(m: Mode) { AtMostOne(m.inSingle, m.inDouble, m.inBacktick, m.inLine, m.inBlock) }

  predicate Inside(m: Mode) { m.inSingle || m.inDouble || m.inBacktick || m.inLine || m.inBlock }

  function ResumeIn(s: string, i: nat, m: Mode): nat {
    Resume(s, i, m.inSingle, m.inDouble, m.inBacktick, m.inLine, m.inBlock)
  }

  /** One turn of the loop inside a string, a template or a comment: no code is passed. */
  method StepInside(source: string, i: nat, m: Mode) returns (i': nat, m': Mode)
    requires i < |source| && Exclusive(m) && Inside(m)
    ensures i < i' && Exclusive(m') && Code(source, ResumeIn(source, i', m')) == Code(source, ResumeIn(source, i, m))
  {
    var ch := source[i];
    var next := if i + 1 < |source| then source[i + 1] else '\0';
    i', m' := i + 1, m;
    if m.inLine {
      if ch == '\n' { m' := m.(inLine := false); }
    } else if m.inBlock {
      if i + 1 < |source| && ch == '*' && next == '/' {
        m' := m.(inBlock := false);
        i' := i + 2;
      }
    } else if ch == '\\' {
      i' := i + 2;
    } else if m.inSingle {
      if ch == '\'' { m' := m.(inSingle := false); }
    } else if m.inDouble {
      if ch == '"' { m' := m.(inDouble := false); }
    } else {
      if ch == '`' { m' := m.(inBacktick := false); }
    }
  }

  /** One turn of the loop outside: a quote or a comment opens, or the character is code. */
  method StepOutside(source: string, i: nat) returns (code: bool, i': nat, m': Mode)
    requires i < |source|
    ensures i < i' && Exclusive(m') && (code ==> i' == i + 1 && !Inside(m'))
    ensures Code(source, i) == (if code then [i] else []) + Code(source, ResumeIn(source, i', m'))
  {
    var ch := source[i];
    var next := if i + 1 < |source| then source[i + 1] else '\0';
    code, i', m' := false, i + 1, Mode(false, false, false, false, false);
    if i + 1 < |source| && ch == '/' && next == '/' {
      m' := m'.(inLine := true);
      i' := i + 2;
    } else if i + 1 < |source| && ch == '/' && next == '*' {
      m' := m'.(inBlock := true);
      i' := i + 2;
    } else if ch == '\'' {
      m' := m'.(inSingle := true);
    } else if ch == '"' {
      m' := m'.(inDouble := true);
    } else if ch == '`' {
      m' := m'.(inBacktick := true);
    } else {
      code := true;
    }
  }

  method MatchClosingParen(source: string, open: nat) returns (r: int)
    ensures forall k :: 0 <= k < |Code(source, open)| ==> Code(source, open)[k] < |source|
    ensures r == -1 <==> forall n :: 0 <= n < |Code(source, open)| ==> !Closes(source, Code(source, open), n)
    ensures r != -1 ==> exists n :: 0 <= n < |Code(source, open)| && Code(source, open)[n] == r
                                    && FirstCloses(source, Code(source, open), n)
  {
    ghost var ps := Code(source, open);
    CodeInside(source, open);
    var depthParen, depthBracket, depthBrace := 0, 0, 0;
    var mode := Mode(false, false, false, false, false);
    var i := open;
    ghost var n := 0;
    while i < |source|
      invariant Exclusive(mode) && n <= |ps| && ps[n..] == Code(source, ResumeIn(source, i, mode))
      invariant depthParen == Depth(source, ps, n)
      invariant forall m :: 0 <= m < n ==> !Closes(source, ps, m)
      decreases |source| - i
    {
      if Inside(mode) {
        i, mode := StepInside(source, i, mode);
        continue;
      }
      var ch, code := source[i], false;
      ghost var at := i;
      code, i, mode := StepOutside(source, i);
      if !code {
        continue;
      }
      assert ps[n..][0] == at && ps[n..][1..] == ps[n + 1..];
      if ch == '(' {
        depthParen := depthParen + 1;
      } else if ch == ')' {
        depthParen := depthParen - 1;
        if depthParen == 0 {
          assert FirstCloses(source, ps, n);
          return i - 1;
        }
      } else if ch == '[' { depthBracket := depthBracket + 1; }
      else if ch == ']' { depthBracket := depthBracket - 1; }
      else if ch == '{' { depthBrace := depthBrace + 1; }
      else if ch == '}' { depthBrace := depthBrace - 1; }
      n := n + 1;
    }
    return -1;
  }

  // ----------------------------------------------------------------------- balance

  lemma {:induction false} DepthShift(s: string, ps: seq<nat>, m: nat)
    requires 0 < |ps| && m < |ps| && forall k :: 0 <= k < |ps| ==> ps[k] < |s|
    ensures Depth(s, ps[1..], m) == Depth(s, ps, m + 1) - Weight(s[ps[0]])
  {
    if m > 0 {
      DepthShift(s, ps, m - 1);
    }
  }

  lemma {:induction false} DepthPrefix(s: string, ps: seq<nat>, n: nat, m: nat)
    requires m <= n <= |ps| && forall k :: 0 <= k < |ps| ==> ps[k] < |s|
    ensures Depth(s, ps[..n], m) == Depth(s, ps, m)
  {
    if m > 0 {
      DepthPrefix(s, ps, n, m - 1);
    }
  }

  lemma {:induction false} StaysOpen(s: string, ps: seq<nat>, n: nat, m: nat)
    requires n < |ps| && 1 <= m <= n && forall k :: 0 <= k < |ps| ==> ps[k] < |s|
    requires s[ps[0]] == '(' && FirstCloses(s, ps, n)
    ensures Depth(s, ps, m) >= 1
  {
    if m == 1 {
      assert Depth(s, ps, 0) == 0;
    } else {
      StaysOpen(s, ps, n, m - 1);
      assert !Closes(s, ps, m - 1);
    }
  }

  /** When the scan starts at a '(' in code, the code strictly inside is balanced. */
  lemma InsideIsBalanced(s: string, open: nat, n: nat)
    requires open < |s| && s[open] == '(' && n < |Code(s, open)|
    requires forall k :: 0 <= k < |Code(s, open)| ==> Code(s, open)[k] < |s|
    requires FirstCloses(s, Code(s, open), n)
    ensures n > 0 && Code(s, open)[0] == open && Balanced(s, Code(s, open)[1..n])
  {
    var ps := Code(s, open);
    assert ps[0] == open;
    var inner := ps[..n][1..];
    assert inner == ps[1..n];
    forall m | 0 <= m <= |inner| ensures Depth(s, inner, m) == Depth(s, ps, m + 1) - 1 {
      DepthShift(s, ps[..n], m);
      DepthPrefix(s, ps, n, m + 1);
    }
    forall m | 0 <= m <= |inner| ensures Depth(s, inner, m) >= 0 {
      StaysOpen(s, ps, n, m + 1);
    }
  }
}
