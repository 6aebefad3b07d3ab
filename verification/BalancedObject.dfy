/** The brace scanner shared by the response parsers: the first balanced object
    of a text, with braces inside string literals ignored. */
module BalancedObject {
  import opened Text
  import opened Json
  import opened JsonQuote

  /** Quote and escape state in front of a character. */
  datatype Lex = Lex(inStr: bool, esc: bool)

  const PLAIN := Lex(false, false)
  const QUOTED := Lex(true, false)

  function LexStep(q: Lex, c: char): Lex {
    if q.inStr then
      if q.esc then QUOTED
      else if c == '\\' then Lex(true, true)
      else if c == '"' then PLAIN
      else QUOTED
    else if c == '"' then QUOTED
    else PLAIN
  }

  function LexAt(s: string, i: nat): Lex
    requires i <= |s|
  {
    if i == 0 then PLAIN else LexStep(LexAt(s, i - 1), s[i - 1])
  }

  predicate OpensAt(s: string, i: nat)
    requires i < |s|
  {
    s[i] == '{' && !LexAt(s, i).inStr
  }

  predicate ClosesAt(s: string, i: nat)
    requires i < |s|
  {
    s[i] == '}' && !LexAt(s, i).inStr
  }

  /** Opening minus closing braces outside string literals in s[a..b]. */
  function Balance(s: string, a: nat, b: nat): int
    requires a <= b <= |s|
  {
    if a == b then 0
    else Balance(s, a, b - 1) + (if OpensAt(s, b - 1) then 1 else if ClosesAt(s, b - 1) then -1 else 0)
  }

  ghost predicate FirstOpen(s: string, a: nat) {
    a < |s| && OpensAt(s, a) && forall k :: 0 <= k < a ==> !OpensAt(s, k)
  }

  /** s[a..b] is the shortest balanced text that starts at the first opening brace. */
  ghost predicate BalancedSlice(s: string, a: nat, b: nat) {
    FirstOpen(s, a) && a < b <= |s| && Balance(s, a, b) == 0
    && forall k :: a < k < b ==> Balance(s, a, k) > 0
  }

  lemma SliceUnique(s: string, a: nat, b: nat, a': nat, b': nat)
    requires BalancedSlice(s, a, b) && BalancedSlice(s, a', b')
    ensures a == a' && b == b'
  {
  }

  ghost function FirstBalanced(s: string): Option<string> {
    if exists a: nat, b: nat :: BalancedSlice(s, a, b) then
      var a: nat, b: nat :| BalancedSlice(s, a, b);
      Some(s[a..b])
    else None
  }

  lemma FirstBalancedIs(s: string, a: nat, b: nat)
    requires BalancedSlice(s, a, b)
    ensures FirstBalanced(s) == Some(s[a..b])
  {
    var a': nat, b': nat :| BalancedSlice(s, a', b') && FirstBalanced(s) == Some(s[a'..b']);
    SliceUnique(s, a, b, a', b');
  }

  method FirstBalancedObject(s: string) returns (obj: Option<string>)
    ensures obj == FirstBalanced(s)
  {
    var start, depth, inStr, esc := -1, 0, false, false;
    for i := 0 to |s|
      invariant LexAt(s, i) == Lex(inStr, esc)
      invariant start < 0 ==> depth == 0 && forall k :: 0 <= k < i ==> !OpensAt(s, k)
      invariant start >= 0 ==> start < i && FirstOpen(s, start) && depth == Balance(s, start, i)
      invariant start >= 0 ==> forall k :: start < k <= i ==> Balance(s, start, k) > 0
    {
      var c := s[i];
      if inStr {
        if esc {
          esc := false;
        } else if c == '\\' {
          esc := true;
        } else if c == '"' {
          inStr := false;
        }
        continue;
      }
      if c == '"' {
        inStr := true;
      } else if c == '{' {
        if start < 0 { start := i; }
        depth := depth + 1;
      } else if c == '}' {
        if start < 0 { continue; }
        depth := depth - 1;
        if depth == 0 {
          FirstBalancedIs(s, start, i + 1);
          return Some(s[start..i + 1]);
        }
      }
    }
    return None;
  }

  // --------------------------------------------------- what the result means

  /** Success means exactly that the first opening brace is balanced later on. */
  lemma SucceedsIff(s: string)
    ensures FirstBalanced(s).Some?
        <==> exists a: nat, b: nat :: FirstOpen(s, a) && a < b <= |s| && Balance(s, a, b) == 0
  {
    if a: nat, b: nat :| FirstOpen(s, a) && a < b <= |s| && Balance(s, a, b) == 0 {
      LeastBalanced(s, a, b);
    }
  }

  lemma {:induction false} LeastBalanced(s: string, a: nat, b: nat)
    requires FirstOpen(s, a) && a < b <= |s| && Balance(s, a, b) == 0
    ensures FirstBalanced(s).Some?
    decreases b
  {
    if forall k: nat :: a < k < b ==> Balance(s, a, k) > 0 {
      FirstBalancedIs(s, a, b);
    } else {
      var k: nat :| a < k < b && Balance(s, a, k) <= 0;
      assert Balance(s, a, a + 1) == 1 by { assert Balance(s, a, a) == 0; }
      CrossesZero(s, a, a + 1, k);
      var z: nat :| a < z <= k && Balance(s, a, z) == 0;
      LeastBalanced(s, a, z);
    }
  }

  /** A balance moves by at most one per character. */
  lemma {:induction false} CrossesZero(s: string, a: nat, lo: nat, hi: nat)
    requires a < lo <= hi <= |s| && Balance(s, a, lo) > 0 && Balance(s, a, hi) <= 0
    ensures exists z: nat :: a < z <= hi && Balance(s, a, z) == 0
    decreases hi
  {
    if Balance(s, a, hi) < 0 { CrossesZero(s, a, lo, hi - 1); }
  }

  // ---------------------------------------------- texts scanned inside others

  /** A piece that starts in the plain state is scanned as if it stood alone. */
  lemma {:induction false} LexShift(p: string, x: string, r: string, k: nat)
    requires k <= |x| && LexAt(p, |p|) == PLAIN
    ensures LexAt(p + x + r, |p| + k) == LexAt(x, k)
  {
    if k == 0 {
      LexPrefix(p, x + r, |p|);
      assert p + x + r == p + (x + r);
    } else {
      LexShift(p, x, r, k - 1);
    }
  }

  lemma {:induction false} LexPrefix(s: string, t: string, k: nat)
    requires k <= |s|
    ensures LexAt(s + t, k) == LexAt(s, k)
  {
    if k > 0 { LexPrefix(s, t, k - 1); }
  }

  lemma {:induction false} BalanceShift(p: string, x: string, r: string, a: nat, b: nat)
    requires a <= b <= |x| && LexAt(p, |p|) == PLAIN
    ensures Balance(p + x + r, |p| + a, |p| + b) == Balance(x, a, b)
  {
    if a < b {
      BalanceShift(p, x, r, a, b - 1);
      LexShift(p, x, r, b - 1);
    }
  }

  lemma {:induction false} BalanceSplit(s: string, a: nat, m: nat, b: nat)
    requires a <= m <= b <= |s|
    ensures Balance(s, a, b) == Balance(s, a, m) + Balance(s, m, b)
  {
    if m < b { BalanceSplit(s, a, m, b - 1); }
  }

  /** Scanning p leaves the scanner as it was: no open brace met, no literal open. */
  ghost predicate Neutral(p: string) {
    LexAt(p, |p|) == PLAIN && forall k :: 0 <= k < |p| ==> !OpensAt(p, k)
  }

  lemma FirstOpenShift(p: string, x: string, r: string, a: nat)
    requires Neutral(p) && FirstOpen(x, a)
    ensures FirstOpen(p + x + r, |p| + a)
  {
    var u := p + x + r;
    forall k | 0 <= k < |p| ensures !OpensAt(u, k) {
      LexPrefix(p, x + r, k);
      assert u == p + (x + r) && u[k] == p[k];
      assert !OpensAt(p, k);
    }
    forall k | |p| <= k <= |p| + a ensures OpensAt(u, k) <==> OpensAt(x, k - |p|) {
      LexShift(p, x, r, k - |p|);
      assert u[k] == x[k - |p|];
    }
  }

  lemma SliceShift(p: string, x: string, r: string, a: nat, b: nat)
    requires Neutral(p) && BalancedSlice(x, a, b)
    ensures BalancedSlice(p + x + r, |p| + a, |p| + b)
  {
    FirstOpenShift(p, x, r, a);
    var u, a', b' := p + x + r, |p| + a, |p| + b;
    forall k | a' < k <= b' ensures Balance(u, a', k) == Balance(x, a, k - |p|) {
      BalanceShift(p, x, r, a, k - |p|);
    }
  }

  /** A neutral prefix and any suffix do not change a successful result. */
  lemma EmbeddedObject(p: string, s: string, t: string)
    requires Neutral(p) && FirstBalanced(s).Some?
    ensures FirstBalanced(p + s + t) == FirstBalanced(s)
  {
    var a: nat, b: nat :| BalancedSlice(s, a, b);
    FirstBalancedIs(s, a, b);
    SliceShift(p, s, t, a, b);
    FirstBalancedIs(p + s + t, |p| + a, |p| + b);
    assert (p + s + t)[|p| + a..|p| + b] == s[a..b];
  }

  /** A complete object text: the scanner returns all of it. */
  ghost predicate Complete(o: string) { FirstBalanced(o) == Some(o) }

  lemma LexEsc(s: string, i: nat)
    requires i <= |s| && !LexAt(s, i).inStr
    ensures LexAt(s, i) == PLAIN
  {
  }

  /** A slice that starts outside a literal has the balances it has in place. */
  lemma SliceBalances(s: string, a: nat, b: nat)
    requires a < b <= |s| && !LexAt(s, a).inStr
    ensures LexAt(s[a..b], 0) == PLAIN
    ensures forall k :: 0 <= k <= b - a ==> Balance(s[a..b], 0, k) == Balance(s, a, a + k)
  {
    var p, o, r := s[..a], s[a..b], s[b..];
    assert s == p + o + r && s == p + (o + r);
    LexPrefix(p, o + r, a);
    LexEsc(s, a);
    forall k | 0 <= k <= |o| ensures Balance(o, 0, k) == Balance(s, a, a + k) {
      BalanceShift(p, o, r, 0, k);
    }
  }

  /** Whatever the scanner returns is complete, so scanning it again changes nothing. */
  lemma ResultIsComplete(s: string)
    requires FirstBalanced(s).Some?
    ensures Complete(FirstBalanced(s).value)
  {
    var a: nat, b: nat :| BalancedSlice(s, a, b);
    FirstBalancedIs(s, a, b);
    SliceBalances(s, a, b);
    var o := s[a..b];
    assert OpensAt(o, 0);
    assert BalancedSlice(o, 0, |o|);
    FirstBalancedIs(o, 0, |o|);
    assert o[0..|o|] == o;
  }

  // --------------------------------------- what the JSON reader reads is balanced

  /** Scanned from the plain state, x returns to it, never goes below its
      starting depth and ends at it. */
  ghost predicate Closed(x: string) {
    LexAt(x, |x|) == PLAIN && Balance(x, 0, |x|) == 0
    && forall k :: 0 <= k <= |x| ==> Balance(x, 0, k) >= 0
  }

  lemma ClosedConcat(x: string, y: string)
    requires Closed(x) && Closed(y)
    ensures Closed(x + y)
  {
    var u := x + y;
    assert u == x + y + "" && u == "" + x + y;
    LexShift(x, y, "", |y|);
    forall k | 0 <= k <= |x| ensures Balance(u, 0, k) == Balance(x, 0, k) {
      BalanceShift("", x, y, 0, k);
    }
    forall k | |x| <= k <= |u| ensures Balance(u, 0, k) == Balance(y, 0, k - |x|) {
      BalanceShift(x, y, "", 0, k - |x|);
      BalanceSplit(u, 0, |x|, k);
    }
  }

  /** A text without quotes and braces. */
  lemma {:induction false} FlatIsClosed(x: string)
    requires forall i :: 0 <= i < |x| ==> x[i] !in {'"', '{', '}'}
    ensures Closed(x)
  {
    forall k | 0 <= k <= |x| ensures LexAt(x, k) == PLAIN && Balance(x, 0, k) == 0 {
      FlatPrefix(x, k);
    }
  }

  lemma {:induction false} FlatPrefix(x: string, k: nat)
    requires k <= |x| && forall i :: 0 <= i < |x| ==> x[i] !in {'"', '{', '}'}
    ensures LexAt(x, k) == PLAIN && Balance(x, 0, k) == 0
  {
    if k > 0 { FlatPrefix(x, k - 1); }
  }

  /** A literal body: from inside a literal it never leaves it and ends unescaped. */
  ghost predicate LiteralBody(x: string) {
    var u := "\"" + x;
    LexAt(u, |u|) == QUOTED && forall k :: 1 <= k <= |u| ==> LexAt(u, k).inStr
  }

  /** One character, a two-character escape or a six-character escape. */
  predicate EscapedChar(e: string) {
    (|e| == 1 && e[0] != '"' && e[0] != '\\') ||
    (|e| == 2 && e[0] == '\\') ||
    (|e| == 6 && e[0] == '\\' && forall i :: 2 <= i < 6 ==> e[i] != '"' && e[i] != '\\')
  }

  /** From equal states equal text leads to equal states. */
  lemma {:induction false} LexSame(p: string, q: string, x: string, k: nat)
    requires k <= |x| && LexAt(p, |p|) == LexAt(q, |q|)
    ensures LexAt(p + x, |p| + k) == LexAt(q + x, |q| + k)
  {
    if k == 0 {
      LexPrefix(p, x, |p|);
      LexPrefix(q, x, |q|);
    } else {
      LexSame(p, q, x, k - 1);
    }
  }

  lemma QuoteOpens()
    ensures LexAt("\"", 1) == QUOTED
  {
    assert LexAt("\"", 1) == LexStep(LexAt("\"", 0), '"');
  }

  lemma LiteralBodyConcat(x: string, y: string)
    requires LiteralBody(x) && LiteralBody(y)
    ensures LiteralBody(x + y)
  {
    QuoteOpens();
    var u, w := "\"" + x, "\"" + (x + y);
    assert w == u + y;
    forall k | 1 <= k <= |w| ensures LexAt(w, k).inStr && (k == |w| ==> LexAt(w, k) == QUOTED) {
      if k <= |u| {
        LexPrefix(u, y, k);
      } else {
        LexSame(u, "\"", y, k - |u|);
      }
    }
    if y == "" { assert w == u; }
  }

  lemma PieceIsBody(e: string)
    requires EscapedChar(e)
    ensures LiteralBody(e)
  {
    QuoteOpens();
    var w := "\"" + e;
    LexPrefix("\"", e, 1);
    assert LexAt(w, 2) == LexStep(QUOTED, e[0]);
    if |e| >= 2 { assert LexAt(w, 3) == QUOTED; }
    if |e| == 6 {
      assert LexAt(w, 4) == QUOTED;
      assert LexAt(w, 5) == QUOTED;
      assert LexAt(w, 6) == QUOTED;
      assert LexAt(w, 7) == QUOTED;
    }
  }

  lemma LiteralIsClosed(x: string)
    requires LiteralBody(x)
    ensures Closed("\"" + x + "\"")
    ensures Neutral("\"" + x + "\"")
  {
    var u, w := "\"" + x, "\"" + x + "\"";
    forall k | 0 <= k <= |u| ensures LexAt(w, k) == LexAt(u, k) { LexPrefix(u, "\"", k); }
    forall k | 0 <= k <= |w| ensures Balance(w, 0, k) == 0 { LiteralBalance(w, k); }
  }

  lemma {:induction false} LiteralBalance(w: string, k: nat)
    requires k <= |w| && w != "" && w[0] == '"' && forall i :: 1 <= i < |w| ==> LexAt(w, i).inStr
    ensures Balance(w, 0, k) == 0
  {
    if k > 0 { LiteralBalance(w, k - 1); }
  }

  /** A closed text in braces is closed, and complete. */
  lemma Braced(x: string)
    requires Closed(x)
    ensures Closed("{" + x + "}") && Complete("{" + x + "}")
  {
    var u := "{" + x + "}";
    assert LexAt("{", 1) == LexStep(LexAt("{", 0), '{') == PLAIN;
    LexShift("{", x, "}", |x|);
    assert Balance(u, 0, 1) == 1 by { assert Balance(u, 0, 0) == 0; }
    forall k | 1 <= k <= |x| + 1 ensures Balance(u, 0, k) == 1 + Balance(x, 0, k - 1) {
      BalanceShift("{", x, "}", 0, k - 1);
      BalanceSplit(u, 0, 1, k);
    }
    assert |u| == |x| + 2 && u[|x| + 1] == '}';
    assert LexAt(u, |x| + 1) == PLAIN;
    assert Balance(u, 0, |u|) == 0;
    assert BalancedSlice(u, 0, |u|);
    FirstBalancedIs(u, 0, |u|);
    assert u[0..|u|] == u;
  }

  /** No control characters. */
  predicate Printable(x: string) { forall i :: 0 <= i < |x| ==> ' ' <= x[i] }

  lemma PrintableConcat(x: string, y: string)
    ensures Printable(x) && Printable(y) ==> Printable(x + y)
  {
  }

  lemma EscapeIsBody(t: string)
    requires EscapeNumber(t) >= 0
    ensures LiteralBody(t[..6]) && Printable(t[..6])
  {
    assert EscapedChar(t[..6]);
    PieceIsBody(t[..6]);
  }

  /** What the string reader takes for one character is a literal body. */
  lemma CharIsBody(t: string, lax: bool)
    requires t != "" && t[0] != '"' && ReadChar(t, lax).Some?
    ensures LiteralBody(t[..ReadChar(t, lax).value.1])
    ensures !lax ==> Printable(t[..ReadChar(t, lax).value.1])
  {
    var n := ReadChar(t, lax).value.1;
    if n <= 2 {
      PieceIsBody(t[..n]);
    } else {
      EscapeIsBody(t);
      if n == 12 {
        EscapeIsBody(t[6..]);
        LiteralBodyConcat(t[..6], t[6..][..6]);
        assert t[..12] == t[..6] + t[6..][..6];
      }
    }
  }

  /** What a reader took from t when it left rest. */
  function Taken(t: string, rest: string): string
    requires |rest| <= |t|
  {
    t[..|t| - |rest|]
  }

  /** No control character inside a literal, no backtick outside. */
  ghost predicate Tidy(x: string) { forall i: nat :: i < |x| ==> TidyAt(x, i) }

  predicate TidyAt(x: string, i: nat)
    requires i < |x|
  {
    if LexAt(x, i).inStr then ' ' <= x[i] else x[i] != '`'
  }

  lemma TidyConcat(x: string, y: string)
    requires LexAt(x, |x|) == PLAIN && Tidy(x) && Tidy(y)
    ensures Tidy(x + y)
  {
    var u := x + y;
    forall i: nat | i < |u| ensures TidyAt(u, i) {
      if i < |x| { TidyFront(x, y, i); } else { TidyBack(x, y, i - |x|); }
    }
  }

  lemma TidyFront(x: string, y: string, k: nat)
    requires k < |x| && TidyAt(x, k)
    ensures TidyAt(x + y, k)
  {
    LexPrefix(x, y, k);
  }

  lemma TidyBack(x: string, y: string, k: nat)
    requires LexAt(x, |x|) == PLAIN && k < |y| && TidyAt(y, k)
    ensures TidyAt(x + y, |x| + k)
  {
    LexShift(x, y, "", k);
    assert x + y + "" == x + y;
  }

  /** rest is the end of t, and what was taken is tidy and scanned back to the
      same depth. */
  ghost predicate Consumes(t: string, rest: string) {
    |rest| <= |t| && t == Taken(t, rest) + rest && Closed(Taken(t, rest)) && Tidy(Taken(t, rest))
  }

  lemma Reassociate3(w: string, x: string, y: string, z: string)
    ensures w + (x + y + z) == w + x + y + z
  {
  }

  lemma {:induction false} CharsTakeBody(t: string, lax: bool) returns (body: string)
    requires ReadChars(t, lax).Some?
    ensures LiteralBody(body) && t == body + "\"" + ReadChars(t, lax).value.1
    ensures !lax ==> Printable(body)
  {
    if t[0] == '"' {
      body := "";
      QuoteOpens();
      assert "\"" + "" == "\"";
    } else {
      var n := ReadChar(t, lax).value.1;
      CharIsBody(t, lax);
      var tail := CharsTakeBody(t[n..], lax);
      LiteralBodyConcat(t[..n], tail);
      PrintableConcat(t[..n], tail);
      body := t[..n] + tail;
      Reassociate3(t[..n], tail, "\"", ReadChars(t, lax).value.1);
      assert t == t[..n] + t[n..];
    }
  }

  lemma TakenIs(t: string, x: string, rest: string)
    requires t == x + rest && Closed(x) && Tidy(x)
    ensures Consumes(t, rest) && Taken(t, rest) == x
  {
  }

  lemma LiteralIsTidy(body: string)
    requires LiteralBody(body) && Printable(body)
    ensures Tidy("\"" + body + "\"")
  {
    var u, x := "\"" + body, "\"" + body + "\"";
    forall i: nat | i < |x| ensures TidyAt(x, i) {
      if 0 < i < |u| {
        LexPrefix(u, "\"", i);
        assert x[i] == body[i - 1];
      }
    }
  }

  lemma StringConsumes(t: string)
    requires ReadString(t, false).Some?
    ensures Consumes(t, ReadString(t, false).value.1)
  {
    var rest := ReadString(t, false).value.1;
    var body := CharsTakeBody(t[1..], false);
    LiteralIsClosed(body);
    LiteralIsTidy(body);
    assert t == "\"" + (body + "\"" + rest);
    Reassociate("\"", body, "\"" + rest);
    Reassociate(body, "\"", rest);
    Reassociate("\"" + body, "\"", rest);
    TakenIs(t, "\"" + body + "\"", rest);
  }

  lemma ConsumesOn(t: string, u: string, w: string)
    requires Consumes(t, u) && Consumes(u, w)
    ensures Consumes(t, w)
  {
    var x, y := Taken(t, u), Taken(u, w);
    ClosedConcat(x, y);
    TidyConcat(x, y);
    Reassociate(x, y, w);
    TakenIs(t, x + y, w);
  }

  lemma Reassociate(x: string, y: string, z: string)
    ensures x + (y + z) == x + y + z
  {
  }

  lemma FlatIsTidy(x: string)
    requires forall i :: 0 <= i < |x| ==> x[i] !in {'"', '{', '}', '`'}
    ensures Tidy(x)
  {
    forall i: nat | i < |x| ensures TidyAt(x, i) { FlatPrefix(x, i); }
  }

  lemma FlatConsumes(t: string, n: nat)
    requires n <= |t| && forall i :: 0 <= i < n ==> t[i] !in {'"', '{', '}', '`'}
    ensures Consumes(t, t[n..])
  {
    FlatIsClosed(t[..n]);
    FlatIsTidy(t[..n]);
    assert t == t[..n] + t[n..];
    TakenIs(t, t[..n], t[n..]);
  }

  lemma {:induction false} SkipConsumes(t: string)
    ensures Consumes(t, Skip(t)) && Neutral(Taken(t, Skip(t)))
  {
    SkipTakes(t);
    FlatConsumes(t, |t| - |Skip(t)|);
    FlatIsNeutral(Taken(t, Skip(t)));
  }

  lemma {:induction false} SkipTakes(t: string)
    ensures t[|t| - |Skip(t)|..] == Skip(t)
    ensures forall i :: 0 <= i < |t| - |Skip(t)| ==> t[i] !in {'"', '{', '}', '`'}
  {
    if t != "" && JsonSpace(t[0]) { SkipTakes(t[1..]); }
  }

  lemma FlatIsNeutral(x: string)
    requires forall i :: 0 <= i < |x| ==> x[i] !in {'"', '{', '}'}
    ensures Neutral(x)
  {
    FlatPrefix(x, |x|);
  }

  /** Reading on past white space and one flat character. */
  lemma SkipOne(t: string)
    requires Skip(t) != "" && Skip(t)[0] !in {'"', '{', '}', '`'}
    ensures Consumes(t, Skip(t)[1..])
  {
    SkipConsumes(t);
    FlatConsumes(Skip(t), 1);
    ConsumesOn(t, Skip(t), Skip(t)[1..]);
  }

  lemma KeyConsumes(t: string)
    requires ReadKey(t).Some?
    ensures Consumes(t, ReadKey(t).value.1)
  {
    var u := Skip(t);
    var rest := ReadString(u, false).value.1;
    SkipConsumes(t);
    StringConsumes(u);
    ConsumesOn(t, u, rest);
    SkipOne(rest);
    ConsumesOn(t, rest, Skip(rest)[1..]);
  }

  /** The scanner crosses exactly what the JSON reader reads as a value. */
  lemma {:induction false} ValueConsumes(t: string)
    requires ReadValue(t).Some?
    ensures Consumes(t, ReadValue(t).value.1)
    decreases |t|, 2
  {
    SkipConsumes(t);
    TokenConsumes(Skip(t));
    ConsumesOn(t, Skip(t), ReadValue(t).value.1);
  }

  lemma {:induction false} TokenConsumes(t: string)
    requires t != "" && ReadToken(t).Some?
    ensures Consumes(t, ReadToken(t).value.1)
    ensures t[0] == '{' ==> Complete(Taken(t, ReadToken(t).value.1))
    decreases |t|, 1
  {
    var rest := ReadToken(t).value.1;
    if t[0] == '"' {
      StringConsumes(t);
    } else if t[0] == '[' {
      ArrayConsumes(t);
    } else if t[0] == '{' {
      ObjectConsumes(t);
    } else {
      WordConsumes(t);
    }
  }

  lemma WordConsumes(t: string)
    requires t != "" && t[0] !in {'"', '[', '{'} && ReadToken(t).Some?
    ensures Consumes(t, ReadToken(t).value.1)
  {
    if "null" <= t || "true" <= t {
      LettersConsume(t, 4);
    } else if "false" <= t {
      LettersConsume(t, 5);
    } else {
      NumberConsumes(t, NumberLength(t));
    }
  }

  lemma LettersConsume(t: string, n: nat)
    requires n <= |t| && (t[..n] == "null" || t[..n] == "true" || t[..n] == "false")
    ensures Consumes(t, t[n..])
  {
    forall i | 0 <= i < n ensures t[i] !in {'"', '{', '}', '`'} { assert t[i] == t[..n][i]; }
    FlatConsumes(t, n);
  }

  lemma NumberConsumes(t: string, n: nat)
    requires n <= |t| && ValidNumber(t[..n])
    ensures Consumes(t, t[n..])
  {
    ValidNumberShape(t[..n]);
    forall i | 0 <= i < n ensures t[i] !in {'"', '{', '}', '`'} { assert NumberChar(t[..n][i]); }
    FlatConsumes(t, n);
  }

  lemma {:induction false} ArrayConsumes(t: string)
    requires t != "" && t[0] == '[' && ReadToken(t).Some?
    ensures Consumes(t, ReadToken(t).value.1)
    decreases |t|, 0
  {
    var u := Skip(t[1..]);
    FlatConsumes(t, 1);
    SkipConsumes(t[1..]);
    ConsumesOn(t, t[1..], u);
    if u != "" && u[0] == ']' {
      FlatConsumes(u, 1);
    } else {
      ItemsConsume(u, []);
    }
    ConsumesOn(t, u, ReadToken(t).value.1);
  }

  lemma {:induction false} ItemsConsume(t: string, acc: seq<Json>)
    requires ReadItems(t, acc).Some?
    ensures Consumes(t, ReadItems(t, acc).value.1)
    decreases |t|, 3
  {
    var p := ReadValue(t).value;
    var u := Skip(p.1);
    ValueConsumes(t);
    SkipOne(p.1);
    ConsumesOn(t, p.1, u[1..]);
    if u[0] == ',' {
      ItemsConsume(u[1..], acc + [p.0]);
      ConsumesOn(t, u[1..], ReadItems(t, acc).value.1);
    }
  }

  lemma {:induction false} ObjectConsumes(t: string)
    requires t != "" && t[0] == '{' && ReadToken(t).Some?
    ensures var rest := ReadToken(t).value.1; Consumes(t, rest) && Complete(Taken(t, rest))
    decreases |t|, 0
  {
    var u := Skip(t[1..]);
    SkipConsumes(t[1..]);
    var w := u;
    if u == "" || u[0] != '}' {
      w := FieldsConsume(u, map[]);
      ConsumesOn(t[1..], u, w);
    }
    BracedTaken(t, w);
  }

  lemma BracedTidy(x: string)
    requires Closed(x) && Tidy(x)
    ensures Tidy("{" + x + "}")
  {
    PlainBrace();
    TidyConcat("{", x);
    LexShift("{", x, "", |x|);
    assert "{" + x + "" == "{" + x;
    TidyConcat("{" + x, "}");
  }

  lemma PlainBrace()
    ensures LexAt("{", 1) == PLAIN && Tidy("{") && Tidy("}")
  {
    assert LexAt("{", 1) == LexStep(LexAt("{", 0), '{');
  }

  lemma BracedTaken(t: string, w: string)
    requires t != "" && t[0] == '{' && Consumes(t[1..], w) && w != "" && w[0] == '}'
    ensures Consumes(t, w[1..]) && Complete(Taken(t, w[1..]))
  {
    var x := Taken(t[1..], w);
    Braced(x);
    BracedTidy(x);
    BracedText(t, x, w);
    TakenIs(t, "{" + x + "}", w[1..]);
  }

  lemma BracedText(t: string, x: string, w: string)
    requires t != "" && t[0] == '{' && t[1..] == x + w && w != "" && w[0] == '}'
    ensures t == "{" + x + "}" + w[1..]
  {
    assert t == "{" + (x + ("}" + w[1..]));
  }

  /** What follows one field: its key, its value and white space are behind. */
  function AfterField(t: string): string
    requires ReadKey(t).Some? && ReadValue(ReadKey(t).value.1).Some?
  {
    Skip(ReadValue(ReadKey(t).value.1).value.1)
  }

  lemma FieldConsumes(t: string)
    requires ReadKey(t).Some? && ReadValue(ReadKey(t).value.1).Some?
    requires Consumes(ReadKey(t).value.1, ReadValue(ReadKey(t).value.1).value.1)
    ensures Consumes(t, AfterField(t))
  {
    var k := ReadKey(t).value.1;
    var p := ReadValue(k).value.1;
    KeyConsumes(t);
    ConsumesOn(t, k, p);
    SkipConsumes(p);
    ConsumesOn(t, p, Skip(p));
  }

  /** One turn of the field reader. */
  lemma FieldsTurn(t: string, acc: map<string, Json>) returns (acc': map<string, Json>)
    requires ReadFields(t, acc).Some?
    ensures ReadKey(t).Some? && ReadValue(ReadKey(t).value.1).Some?
    ensures var w := AfterField(t); w != "" && (w[0] == '}' || w[0] == ',')
    ensures AfterField(t)[0] == '}' ==> ReadFields(t, acc).value.1 == AfterField(t)[1..]
    ensures AfterField(t)[0] == ',' ==> ReadFields(t, acc) == ReadFields(AfterField(t)[1..], acc')
  {
    var k := ReadKey(t).value;
    acc' := acc[k.0 := ReadValue(k.1).value.0];
  }

  /** The field reader stops at the brace that closes the object. */
  lemma {:induction false} FieldsConsume(t: string, acc: map<string, Json>) returns (w: string)
    requires ReadFields(t, acc).Some?
    ensures Consumes(t, w) && w != "" && w[0] == '}' && w[1..] == ReadFields(t, acc).value.1
    decreases |t|, 3
  {
    var acc' := FieldsTurn(t, acc);
    ValueConsumes(ReadKey(t).value.1);
    FieldConsumes(t);
    w := AfterField(t);
    if w[0] == ',' {
      var u := w[1..];
      FlatConsumes(w, 1);
      ConsumesOn(t, w, u);
      w := FieldsConsume(u, acc');
      ConsumesOn(t, u, w);
    }
  }

  /** Whenever the JSON reader reads an object, laid out in any way, the scanner
      cuts out exactly the text it was read from. */
  lemma ScannerAgreesWithReader(t: string, v: Json, rest: string)
    requires ReadValue(t) == Some((v, rest)) && v.Object?
    ensures |rest| < |Skip(t)| && FirstBalanced(t) == Some(Taken(Skip(t), rest))
    ensures Complete(Taken(Skip(t), rest)) && Tidy(Taken(Skip(t), rest))
  {
    var u := Skip(t);
    SkipConsumes(t);
    ObjectBrace(u);
    TokenConsumes(u);
    var p, o := Taken(t, u), Taken(u, rest);
    assert t == p + u && u == o + rest && t == p + o + rest;
    EmbeddedObject(p, o, rest);
  }

  lemma ObjectBrace(t: string)
    requires t != "" && ReadToken(t).Some? && ReadToken(t).value.0.Object?
    ensures t[0] == '{'
  {
    if t[0] == '[' && Skip(t[1..]) != "" && Skip(t[1..])[0] != ']' { ItemsGiveArray(Skip(t[1..]), []); }
  }

  lemma {:induction false} ItemsGiveArray(t: string, acc: seq<Json>)
    ensures ReadItems(t, acc).Some? ==> ReadItems(t, acc).value.0.Array?
    decreases |t|
  {
    if ReadItems(t, acc).Some? {
      var p := ReadValue(t).value;
      var u := Skip(p.1);
      if u[0] == ',' { ItemsGiveArray(u[1..], acc + [p.0]); }
    }
  }

  lemma QuoteIsClosed(s: string)
    ensures Closed(Quote(s)) && Neutral(Quote(s))
  {
    QuoteRoundTrip(s, "");
    assert Quote(s) + "" == Quote(s);
    var body := CharsTakeBody(Quote(s)[1..], true);
    assert Quote(s) == "\"" + body + "\"";
    LiteralIsClosed(body);
  }

  lemma CrossesNeutral(p: string, x: string, r: string)
    requires LexAt(p, |p|) == PLAIN && Closed(x) && Neutral(x)
    ensures var u, e := p + x + r, |p| + |x|;
      LexAt(u, e) == PLAIN && Balance(u, 0, e) == Balance(p, 0, |p|)
      && forall k :: |p| <= k < e ==> !OpensAt(u, k)
  {
    var u, e := p + x + r, |p| + |x|;
    LexShift(p, x, r, |x|);
    BalanceShift(p, x, r, 0, |x|);
    BalanceSplit(u, 0, |p|, e);
    assert u == "" + p + (x + r);
    BalanceShift("", p, x + r, 0, |p|);
    forall k | |p| <= k < e ensures !OpensAt(u, k) {
      LexShift(p, x, r, k - |p|);
      assert !OpensAt(x, k - |p|) && u[k] == x[k - |p|];
    }
  }

  /** The scanner crosses any quoted string, wherever it stands outside a
      literal: the depth is unchanged, no brace inside it counts, and the
      plain state is restored. */
  lemma CrossesQuoted(p: string, s: string, r: string)
    requires LexAt(p, |p|) == PLAIN
    ensures var u, e := p + Quote(s) + r, |p| + |Quote(s)|;
      LexAt(u, e) == PLAIN && Balance(u, 0, e) == Balance(p, 0, |p|)
      && forall k :: |p| <= k < e ==> !OpensAt(u, k)
  {
    QuoteIsClosed(s);
    CrossesNeutral(p, Quote(s), r);
  }

  /** The canonical text of an object is complete. */
  lemma EncodedObjectIsComplete(v: Json)
    requires v.Object? && WellFormed(v)
    ensures Complete(Encode(v))
  {
    ValueRoundTrip(v, "");
    assert Encode(v) + "" == Encode(v);
    EncodeStarts(v);
    NothingToSkip(Encode(v));
    ScannerAgreesWithReader(Encode(v), v, "");
    assert Taken(Encode(v), "") == Encode(v);
  }

  lemma UnclosedBraceHides(x: string)
    requires Closed(x)
    ensures FirstBalanced("{" + x) == None
  {
    var u := "{" + x;
    assert u == "{" + x + "";
    assert LexAt("{", 1) == LexStep(LexAt("{", 0), '{') == PLAIN;
    assert OpensAt(u, 0);
    assert Balance(u, 0, 1) == 1 by { assert Balance(u, 0, 0) == 0; }
    forall k | 1 <= k <= |u| ensures Balance(u, 0, k) > 0 {
      BalanceShift("{", x, "", 0, k - 1);
      BalanceSplit(u, 0, 1, k);
    }
    assert forall a: nat :: FirstOpen(u, a) ==> a == 0;
  }

  /** One opening brace that is never closed hides the balanced object after it. */
  lemma LaterObjectIsMissed(v: Json)
    requires v.Object? && WellFormed(v)
    ensures FirstBalanced(Encode(v)) == Some(Encode(v))
    ensures FirstBalanced("{" + Encode(v)) == None
  {
    EncodedObjectIsComplete(v);
    ValueRoundTrip(v, "");
    assert Encode(v) + "" == Encode(v);
    ValueConsumes(Encode(v));
    assert Taken(Encode(v), "") == Encode(v);
    UnclosedBraceHides(Encode(v));
  }
}
