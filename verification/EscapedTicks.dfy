/** JSON text in which every backtick is written as an escape.  The reader reads
    the same tree from it. */
module EscapedTicks {
  import opened Text
  import opened Json

  const TICK: char := '`'

  function EscapeTick(c: char): string { if c == TICK then "\\u0060" else [c] }

  function EscapeTicks(t: string): string {
    if t == "" then "" else EscapeTick(t[0]) + EscapeTicks(t[1..])
  }

  lemma {:induction false} NoTicksLeft(t: string)
    ensures TICK !in EscapeTicks(t)
  {
    if t != "" { NoTicksLeft(t[1..]); }
  }

  /** A front without backticks stays. */
  lemma {:induction false} PlainFront(t: string, n: nat)
    requires n <= |t| && TICK !in t[..n]
    ensures EscapeTicks(t) == t[..n] + EscapeTicks(t[n..])
  {
    if n > 0 {
      FrontSplits(t, n);
      PlainFront(t[1..], n - 1);
    }
  }

  lemma FrontSplits(t: string, n: nat)
    requires 0 < n <= |t|
    ensures t[..n] == [t[0]] + t[1..][..n - 1] && t[1..][n - 1..] == t[n..]
  {
  }

  /** The same, seen from the escaped text. */
  lemma BehindFront(t: string, n: nat)
    requires n <= |t| && TICK !in t[..n]
    ensures var e := EscapeTicks(t); |e| >= n && e[..n] == t[..n] && e[n..] == EscapeTicks(t[n..])
  {
    PlainFront(t, n);
  }

  lemma FirstStays(t: string)
    requires t != "" && t[0] != TICK
    ensures var e := EscapeTicks(t); e != "" && e[0] == t[0] && e[1..] == EscapeTicks(t[1..])
  {
    assert t[..1] == [t[0]];
    BehindFront(t, 1);
  }

  lemma FirstEscaped(t: string)
    requires t != "" && t[0] == TICK
    ensures var e := EscapeTicks(t); |e| >= 6 && e[..6] == "\\u0060" && e[6..] == EscapeTicks(t[1..])
  {
  }

  lemma FirstIs(t: string, c: char)
    requires c != TICK && c != '\\'
    ensures EscapeTicks(t) != "" && EscapeTicks(t)[0] == c <==> t != "" && t[0] == c
  {
    if t != "" {
      if t[0] == TICK { FirstEscaped(t); assert EscapeTicks(t)[0] == '\\'; } else { FirstStays(t); }
    }
  }

  lemma {:induction false} SkipEscaped(t: string)
    ensures Skip(EscapeTicks(t)) == EscapeTicks(Skip(t))
  {
    if t != "" {
      if t[0] == TICK {
        FirstEscaped(t);
        assert EscapeTicks(t)[0] == '\\';
      } else {
        FirstStays(t);
        if JsonSpace(t[0]) { SkipEscaped(t[1..]); }
      }
    }
  }

  // -------------------------------------------------------------------- literals

  lemma SameNumber(t: string, u: string)
    requires |t| >= 6 && |u| >= 6 && t[..6] == u[..6]
    ensures EscapeNumber(t) == EscapeNumber(u)
  {
    assert forall i :: 0 <= i < 6 ==> t[i] == t[..6][i] && u[i] == u[..6][i];
  }

  /** No hexadecimal digit is a backtick, so an escape's number stays what it is. */
  lemma EscapeStays(t: string)
    requires EscapeNumber(t) >= 0
    ensures EscapeNumber(EscapeTicks(t)) == EscapeNumber(t)
    ensures TICK !in t[..6]
  {
    assert forall i :: 2 <= i < 6 ==> HexValue(t[i]) >= 0;
    assert t[..6] == [t[0], t[1], t[2], t[3], t[4], t[5]];
    BehindFront(t, 6);
    SameNumber(t, EscapeTicks(t));
  }

  lemma TickNumber(t: string)
    requires |t| >= 6 && t[..6] == "\\u0060"
    ensures EscapeNumber(t) == 0x60
  {
    assert t[0] == t[..6][0] && t[1] == t[..6][1] && t[2] == t[..6][2];
    assert t[3] == t[..6][3] && t[4] == t[..6][4] && t[5] == t[..6][5];
  }

  /** Where no escape was none appears but that of a backtick. */
  lemma NoEscapeAppears(t: string)
    requires EscapeNumber(t) < 0
    ensures EscapeNumber(EscapeTicks(t)) in {-1, 0x60}
  {
    var e := EscapeTicks(t);
    if t != "" && t[0] == TICK {
      FirstEscaped(t);
      TickNumber(e);
    } else if EscapeNumber(e) >= 0 {
      StaysBack(t);
    }
  }

  /** If the escaped text starts with an escape that is not a backtick's, so did the text. */
  lemma StaysBack(t: string)
    requires (t == "" || t[0] != TICK) && EscapeNumber(EscapeTicks(t)) >= 0
    ensures EscapeNumber(t) >= 0
  {
    var n: nat := StartsAlike(t, 6);
    if n < 6 { EscapedFirst(t, n); } else { SameNumber(t, EscapeTicks(t)); }
  }

  /** How far a text starts without backticks, up to n. */
  lemma StartsAlike(t: string, n: nat) returns (k: nat)
    ensures k <= n && k <= |t| && TICK !in t[..k] && (k == n || k == |t| || t[k] == TICK)
    ensures var e := EscapeTicks(t); |e| >= k && e[..k] == t[..k] && e[k..] == EscapeTicks(t[k..])
  {
    k := 0;
    while k < n && k < |t| && t[k] != TICK
      invariant k <= n && k <= |t| && TICK !in t[..k]
    {
      assert t[..k + 1] == t[..k] + [t[k]];
      k := k + 1;
    }
    BehindFront(t, k);
  }

  lemma EscapedFirst(t: string, k: nat)
    requires k < 6 && k <= |t| && (k == |t| || t[k] == TICK) && (k == 0 ==> t == "")
    requires var e := EscapeTicks(t); |e| >= k && e[..k] == t[..k] && e[k..] == EscapeTicks(t[k..])
    ensures EscapeNumber(EscapeTicks(t)) < 0
  {
    var e := EscapeTicks(t);
    if k < |t| {
      FirstEscaped(t[k..]);
      assert e[k] == e[k..][0] == '\\';
    } else {
      assert t[k..] == "" && |e| == k;
    }
  }

  /** One character of a literal is read as before; only its text may differ. */
  lemma CharEscaped(t: string) returns (n: nat)
    requires t != "" && t[0] != '"' && ReadChar(t, false).Some?
    ensures var p, e := ReadChar(t, false).value, EscapeTicks(t);
      e != "" && e[0] != '"' && ReadChar(e, false) == Some((p.0, n)) && n <= |e| && e[n..] == EscapeTicks(t[p.1..])
  {
    if t[0] == TICK {
      n := 6;
      FirstEscaped(t);
      TickNumber(EscapeTicks(t));
      assert EscapeTicks(t)[0] == '\\' && EscapeTicks(t)[1] == 'u';
    } else {
      FirstStays(t);
      n := ReadChar(t, false).value.1;
      if t[0] == '\\' { EscapeEscaped(t); }
    }
  }

  lemma EscapeEscaped(t: string)
    requires t != "" && t[0] == '\\' && ReadChar(t, false).Some?
    ensures var n, e := ReadChar(t, false).value.1, EscapeTicks(t);
      ReadChar(e, false) == ReadChar(t, false) && n <= |e| && e[n..] == EscapeTicks(t[n..])
  {
    assert t[1] != TICK && t[..2] == [t[0], t[1]];
    BehindFront(t, 2);
    var e := EscapeTicks(t);
    assert e[0] == e[..2][0] && e[1] == e[..2][1];
    if t[1] == 'u' { UnicodeEscaped(t); }
  }

  /** The number of a low surrogate at the front of t, or -1. */
  function LowSurrogate(t: string): int {
    if 0xDC00 <= EscapeNumber(t) < 0xE000 then EscapeNumber(t) else -1
  }

  lemma LowSurrogateEscaped(t: string)
    ensures LowSurrogate(EscapeTicks(t)) == LowSurrogate(t)
  {
    if EscapeNumber(t) >= 0 { EscapeStays(t); } else { NoEscapeAppears(t); }
  }

  lemma SameUnicode(t: string, u: string)
    requires EscapeNumber(t) == EscapeNumber(u) >= 0 && LowSurrogate(t[6..]) == LowSurrogate(u[6..])
    ensures UnicodeChar(t) == UnicodeChar(u)
  {
  }

  lemma UnicodeEscaped(t: string)
    requires UnicodeChar(t).Some?
    ensures var n, e := UnicodeChar(t).value.1, EscapeTicks(t);
      UnicodeChar(e) == UnicodeChar(t) && n <= |e| && e[n..] == EscapeTicks(t[n..])
  {
    EscapeStays(t);
    BehindFront(t, 6);
    LowSurrogateEscaped(t[6..]);
    SameUnicode(t, EscapeTicks(t));
    if UnicodeChar(t).value.1 == 12 { TwoEscapes(t); }
  }

  lemma TwoEscapes(t: string)
    requires EscapeNumber(t) >= 0 && EscapeNumber(t[6..]) >= 0
    ensures |EscapeTicks(t)| >= 12 && EscapeTicks(t)[12..] == EscapeTicks(t[12..])
  {
    var e := EscapeTicks(t);
    EscapeStays(t);
    BehindFront(t, 6);
    EscapeStays(t[6..]);
    BehindFront(t[6..], 6);
    assert t[6..][6..] == t[12..] && e[6..][6..] == e[12..];
  }

  lemma {:induction false} CharsEscaped(t: string)
    requires ReadChars(t, false).Some?
    ensures var p := ReadChars(t, false).value; ReadChars(EscapeTicks(t), false) == Some((p.0, EscapeTicks(p.1)))
  {
    if t[0] == '"' {
      FirstStays(t);
    } else {
      var n := CharEscaped(t);
      CharsEscaped(t[ReadChar(t, false).value.1..]);
    }
  }

  lemma StringEscaped(t: string)
    requires ReadString(t, false).Some?
    ensures var p := ReadString(t, false).value; ReadString(EscapeTicks(t), false) == Some((p.0, EscapeTicks(p.1)))
  {
    FirstStays(t);
    CharsEscaped(t[1..]);
  }

  // ---------------------------------------------------------------------- values

  /** White space and one character that is not a backtick are passed alike. */
  lemma SkipOneEscaped(t: string)
    requires Skip(t) != "" && Skip(t)[0] != TICK
    ensures var u := Skip(EscapeTicks(t)); u != "" && u[0] == Skip(t)[0] && u[1..] == EscapeTicks(Skip(t)[1..])
  {
    SkipEscaped(t);
    FirstStays(Skip(t));
  }

  lemma KeyEscaped(t: string)
    requires ReadKey(t).Some?
    ensures var p := ReadKey(t).value; ReadKey(EscapeTicks(t)) == Some((p.0, EscapeTicks(p.1)))
  {
    SkipEscaped(t);
    StringEscaped(Skip(t));
    SkipOneEscaped(ReadString(Skip(t), false).value.1);
  }

  lemma {:induction false} NumberLengthEscaped(t: string)
    ensures NumberLength(EscapeTicks(t)) == NumberLength(t) && TICK !in t[..NumberLength(t)]
  {
    if t != "" {
      if t[0] == TICK {
        FirstEscaped(t);
        assert EscapeTicks(t)[0] == '\\';
      } else {
        FirstStays(t);
        NumberLengthEscaped(t[1..]);
        if NumberChar(t[0]) { assert t[..NumberLength(t)] == [t[0]] + t[1..][..NumberLength(t[1..])]; }
      }
    }
  }

  lemma WordEscaped(t: string)
    requires t != "" && t[0] !in {'"', '[', '{'} && ReadToken(t).Some?
    ensures var p := ReadToken(t).value;
      EscapeTicks(t) != "" && ReadToken(EscapeTicks(t)) == Some((p.0, EscapeTicks(p.1)))
  {
    if "null" <= t {
      LettersEscaped(t, "null");
    } else if "true" <= t {
      LettersEscaped(t, "true");
    } else if "false" <= t {
      LettersEscaped(t, "false");
    } else {
      NumberEscaped(t);
    }
  }

  lemma LettersEscaped(t: string, word: string)
    requires word <= t && word != "" && TICK !in word
    ensures var e := EscapeTicks(t); word <= e && e[0] == t[0] && e[|word|..] == EscapeTicks(t[|word|..])
  {
    assert t[..|word|] == word;
    BehindFront(t, |word|);
    assert EscapeTicks(t)[0] == word[0] == t[0];
  }

  lemma NumberEscaped(t: string)
    requires t != "" && ValidNumber(t[..NumberLength(t)])
    ensures var n, e := NumberLength(t), EscapeTicks(t);
      e != "" && e[0] == t[0] && (IsDigit(t[0]) || t[0] == '-')
      && NumberLength(e) == n && e[..n] == t[..n] && e[n..] == EscapeTicks(t[n..])
  {
    var n := NumberLength(t);
    ValidNumberShape(t[..n]);
    NumberLengthEscaped(t);
    BehindFront(t, n);
    assert t[..n][0] == t[0] && EscapeTicks(t)[..n][0] == EscapeTicks(t)[0];
  }

  /** A value is read as before, leaving the escaped rest. */
  lemma {:induction false} ValueEscaped(t: string)
    requires ReadValue(t).Some?
    ensures var p := ReadValue(t).value; ReadValue(EscapeTicks(t)) == Some((p.0, EscapeTicks(p.1)))
    decreases |t|, 2
  {
    SkipEscaped(t);
    TokenEscaped(Skip(t));
  }

  lemma {:induction false} TokenEscaped(t: string)
    requires t != "" && ReadToken(t).Some?
    ensures var p := ReadToken(t).value;
      EscapeTicks(t) != "" && ReadToken(EscapeTicks(t)) == Some((p.0, EscapeTicks(p.1)))
    decreases |t|, 1
  {
    if t[0] == '"' {
      FirstStays(t);
      StringEscaped(t);
    } else if t[0] == '[' {
      FirstStays(t);
      SkipEscaped(t[1..]);
      var u := Skip(t[1..]);
      FirstIs(u, ']');
      if u != "" && u[0] == ']' { FirstStays(u); } else { ItemsEscaped(u, []); }
    } else if t[0] == '{' {
      FirstStays(t);
      SkipEscaped(t[1..]);
      var u := Skip(t[1..]);
      FirstIs(u, '}');
      if u != "" && u[0] == '}' { FirstStays(u); } else { FieldsEscaped(u, map[]); }
    } else {
      WordEscaped(t);
    }
  }

  lemma {:induction false} ItemsEscaped(t: string, acc: seq<Json>)
    requires ReadItems(t, acc).Some?
    ensures var p := ReadItems(t, acc).value; ReadItems(EscapeTicks(t), acc) == Some((p.0, EscapeTicks(p.1)))
    decreases |t|, 3
  {
    var p := ReadValue(t).value;
    ValueEscaped(t);
    SkipOneEscaped(p.1);
    var u := Skip(p.1);
    if u[0] == ',' { ItemsEscaped(u[1..], acc + [p.0]); }
  }

  lemma {:induction false} FieldsEscaped(t: string, acc: map<string, Json>)
    requires ReadFields(t, acc).Some?
    ensures var p := ReadFields(t, acc).value; ReadFields(EscapeTicks(t), acc) == Some((p.0, EscapeTicks(p.1)))
    decreases |t|, 3
  {
    var k := ReadKey(t).value;
    var p := ReadValue(k.1).value;
    KeyEscaped(t);
    ValueEscaped(k.1);
    SkipOneEscaped(p.1);
    var u := Skip(p.1);
    if u[0] == ',' { FieldsEscaped(u[1..], acc[k.0 := p.0]); }
  }
}
