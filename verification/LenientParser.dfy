/** Reading a JSON object out of a model reply: code fences are stripped, the
    first balanced object is cut out, and the cut is decoded. */
module LenientParser {
  import opened Text
  import opened Json
  import opened BalancedObject

  function TrimLeft(s: string): (r: string)
    ensures |r| <= |s|
  {
    if s != "" && IsSpace(s[0]) then TrimLeft(s[1..]) else s
  }

  function TrimRight(s: string): (r: string)
    ensures |r| <= |s|
  {
    if s != "" && IsSpace(s[|s| - 1]) then TrimRight(s[..|s| - 1]) else s
  }

  function TrimSpace(s: string): string { TrimRight(TrimLeft(s)) }

  predicate FenceAt(s: string, i: nat) { i + 3 <= |s| && s[i] == s[i + 1] == s[i + 2] == '`' }

  /** The position of the next triple backtick at or after i, or -1. */
  function NextFence(s: string, i: nat): (j: int)
    requires i <= |s|
    ensures j >= 0 ==> i <= j && FenceAt(s, j) && forall k :: i <= k < j ==> !FenceAt(s, k)
    ensures j < 0 ==> j == -1 && forall k :: i <= k ==> !FenceAt(s, k)
    decreases |s| - i
  {
    if FenceAt(s, i) then i
    else if i == |s| then -1
    else NextFence(s, i + 1)
  }

  function TrimTag(s: string): string { if "json" <= s then s[4..] else s }

  /** The inside of a fence, without the language tag. */
  function Inner(s: string): string { TrimSpace(TrimTag(TrimSpace(s))) }

  /** The inside of a fence on lines of its own between what surrounded it. */
  function Join3(front: string, inner: string, back: string): string { front + "\n" + inner + "\n" + back }

  /** The text with the fence pair at start and end replaced by its inside. */
  function Spliced(s: string, start: nat, end: nat): string
    requires start + 3 <= end && end + 3 <= |s|
  {
    Join3(s[..start], Inner(s[start + 3..end]), s[end + 3..])
  }

  /** One turn of the loop: unwraps the first fence pair, if there is one. */
  function Unwrap(s: string): (r: Option<string>)
    ensures r.Some? ==> |r.value| + 4 <= |s|
  {
    var start := NextFence(s, 0);
    if start < 0 then None else
    var end := NextFence(s, start + 3);
    if end < 0 then None
    else Some(TrimSpace(Spliced(s, start, end)))
  }

  function Strip(s: string): string
    decreases |s|
  {
    match Unwrap(s)
    case None => s
    case Some(t) => Strip(t)
  }

  method UnwrapFirst(s: string) returns (r: Option<string>)
    ensures r == Unwrap(s)
  {
    var start := NextFence(s, 0);
    if start < 0 { return None; }
    var end := NextFence(s, start + 3);
    if end < 0 { return None; }
    var inner := Inner(s[start + 3..end]);
    r := Some(TrimSpace(Join3(s[..start], inner, s[end + 3..])));
  }

  method StripFences(raw: string) returns (s: string)
    ensures s == Strip(TrimSpace(raw))
  {
    s := TrimSpace(raw);
    var turn := UnwrapFirst(s);
    while turn.Some?
      invariant turn == Unwrap(s) && Strip(s) == Strip(TrimSpace(raw))
      decreases |s|
    {
      s := turn.value;
      turn := UnwrapFirst(s);
    }
  }

  ghost function Extract(raw: string): Option<string> { FirstBalanced(Strip(TrimSpace(raw))) }

  /** Cut out and decode. */
  ghost function Parse(raw: string): Option<Json> {
    match Extract(raw)
    case None => None
    case Some(obj) => Unmarshal(obj)
  }

  method ParseObject(raw: string) returns (v: Option<Json>)
    ensures v == Parse(raw)
  {
    var s := StripFences(raw);
    var obj := FirstBalancedObject(s);
    if obj.None? { return None; }
    v := Unmarshal(obj.value);
  }

  // ----------------------------------------------------------- stripped texts

  ghost predicate Trimmed(s: string) { s == "" || (!IsSpace(s[0]) && !IsSpace(s[|s| - 1])) }

  /** No two triple backticks that do not overlap. */
  ghost predicate NoFencePair(s: string) {
    forall i, j :: 0 <= i && i + 3 <= j && FenceAt(s, i) ==> !FenceAt(s, j)
  }

  lemma TrimSpaceTrims(s: string)
    ensures Trimmed(TrimSpace(s))
  {
    var t := TrimLeft(s);
    TrimLeftTrims(s);
    TrimRightTrims(t);
  }

  lemma {:induction false} TrimLeftTrims(s: string)
    ensures TrimLeft(s) == "" || !IsSpace(TrimLeft(s)[0])
  {
    if s != "" && IsSpace(s[0]) { TrimLeftTrims(s[1..]); }
  }

  lemma {:induction false} TrimRightTrims(s: string)
    ensures TrimRight(s) == "" || !IsSpace(TrimRight(s)[|TrimRight(s)| - 1])
    ensures TrimRight(s) <= s
  {
    if s != "" && IsSpace(s[|s| - 1]) { TrimRightTrims(s[..|s| - 1]); }
  }

  /** The result holds no fence pair and no outer white space. */
  lemma {:induction false} StripSettles(s: string)
    requires Trimmed(s)
    ensures NoFencePair(Strip(s)) && Trimmed(Strip(s)) && Unwrap(Strip(s)) == None
    decreases |s|
  {
    var start := NextFence(s, 0);
    if Unwrap(s).Some? {
      var end := NextFence(s, start + 3);
      TrimSpaceTrims(Spliced(s, start, end));
      StripSettles(Unwrap(s).value);
    } else {
      forall i, j | 0 <= i && i + 3 <= j && FenceAt(s, i) ensures !FenceAt(s, j) {
        assert start <= i;
      }
    }
  }

  lemma TrimmedStays(s: string)
    requires Trimmed(s)
    ensures TrimSpace(s) == s
  {
  }

  /** Stripping twice is stripping once. */
  lemma StripIdempotent(raw: string)
    ensures var s := Strip(TrimSpace(raw)); NoFencePair(s) && Strip(TrimSpace(s)) == s
  {
    TrimSpaceTrims(raw);
    StripSettles(TrimSpace(raw));
    TrimmedStays(Strip(TrimSpace(raw)));
  }

  // -------------------------------------------------------- fenced extraction

  /** Text a strip never eats into: no fence in it, nothing to trim, and its end
      cannot become part of a fence. */
  ghost predicate Anchored(p: string) {
    p != "" && Trimmed(p) && p[|p| - 1] != '`' && forall i :: 0 <= i ==> !FenceAt(p, i)
  }

  lemma {:induction false} TrimLeftOver(p: string, x: string)
    requires x != "" && !IsSpace(x[0])
    ensures TrimLeft(p + x) == TrimLeft(p) + x
  {
    if p == "" {
      assert p + x == x;
    } else {
      assert (p + x)[1..] == p[1..] + x;
      TrimLeftOver(p[1..], x);
    }
  }

  lemma {:induction false} TrimRightOver(x: string, q: string)
    requires x != "" && !IsSpace(x[|x| - 1])
    ensures TrimRight(x + q) == x + TrimRight(q)
  {
    if q == "" {
      assert x + q == x;
    } else {
      var n := |x + q| - 1;
      assert (x + q)[n] == q[|q| - 1];
      assert (x + q)[..n] == x + q[..|q| - 1];
      TrimRightOver(x, q[..|q| - 1]);
    }
  }

  /** Trimming around a piece that is not white space at either end. */
  lemma TrimAround(p: string, x: string, q: string)
    requires x != "" && Trimmed(x)
    ensures TrimSpace(p + x + q) == TrimLeft(p) + x + TrimRight(q)
  {
    assert p + x + q == p + (x + q);
    TrimLeftOver(p, x + q);
    var y := TrimLeft(p) + x;
    assert TrimLeft(p) + (x + q) == y + q;
    TrimRightOver(y, q);
  }

  lemma AnchorHoldsNoFence(p: string, x: string)
    requires Anchored(p)
    ensures forall i :: 0 <= i < |p| ==> !FenceAt(p + x, i)
  {
    forall i | 0 <= i < |p| ensures !FenceAt(p + x, i) {
      assert !FenceAt(p, i);
      assert (p + x)[|p| - 1] == p[|p| - 1];
    }
  }

  lemma Join3Front(p: string, x: string, inner: string, back: string)
    ensures Join3(p + x, inner, back) == p + Join3(x, inner, back)
  {
  }

  lemma SplicedKeeps(p: string, s: string, start: nat, end: nat)
    requires Anchored(p) && p <= s && |p| <= start && start + 3 <= end && end + 3 <= |s|
    ensures p <= TrimSpace(Spliced(s, start, end))
  {
    var x, inner, back := s[|p|..start], Inner(s[start + 3..end]), s[end + 3..];
    assert s[..start] == p + x;
    Join3Front(p, x, inner, back);
    TrimKeeps(p, Join3(x, inner, back));
  }

  lemma TrimKeeps(p: string, y: string)
    requires Anchored(p)
    ensures p <= TrimSpace(p + y)
  {
    assert p + y == "" + p + y;
    TrimAround("", p, y);
    assert "" + p == p;
  }

  lemma UnwrapKeeps(p: string, s: string)
    requires Anchored(p) && p <= s && Unwrap(s).Some?
    ensures p <= Unwrap(s).value
  {
    assert s == p + s[|p|..];
    AnchorHoldsNoFence(p, s[|p|..]);
    var start := NextFence(s, 0);
    SplicedKeeps(p, s, start, NextFence(s, start + 3));
  }

  /** An anchored prefix survives stripping, whatever comes after it. */
  lemma {:induction false} StripKeeps(p: string, s: string)
    requires Anchored(p) && p <= s
    ensures p <= Strip(s)
    decreases |s|
  {
    if Unwrap(s).Some? {
      UnwrapKeeps(p, s);
      StripKeeps(p, Unwrap(s).value);
    }
  }

  /** The text in front of the fence: no open brace or literal, no backticks. */
  ghost predicate Preamble(p: string) {
    Neutral(p) && '`' !in p
  }

  ghost predicate FenceFree(o: string) { forall i :: 0 <= i ==> !FenceAt(o, i) }

  lemma CompleteShape(o: string)
    requires Complete(o)
    ensures o != "" && o[0] == '{' && o[|o| - 1] == '}' && Trimmed(o)
  {
    var a: nat, b: nat :| BalancedSlice(o, a, b);
    FirstBalancedIs(o, a, b);
    assert |o[a..b]| == |o|;
    assert a == 0 && b == |o|;
    assert OpensAt(o, 0);
    assert Balance(o, 0, 0) == 0 && Balance(o, 0, 1) == 1;
    assert Balance(o, 0, |o| - 1) > 0;
  }

  /** White space does not change the scanner state. */
  lemma {:induction false} NeutralTrim(p: string)
    requires Neutral(p)
    ensures Neutral(TrimLeft(p))
  {
    if p != "" && IsSpace(p[0]) {
      assert LexAt([p[0]], 1) == LexStep(LexAt([p[0]], 0), p[0]) == PLAIN;
      forall k | 0 <= k <= |p| - 1 ensures LexAt(p[1..], k) == LexAt(p, k + 1) {
        LexShift([p[0]], p[1..], "", k);
        assert p == [p[0]] + p[1..] + "";
      }
      forall k | 0 <= k < |p| - 1 ensures !OpensAt(p[1..], k) { assert !OpensAt(p, k + 1); }
      NeutralTrim(p[1..]);
    }
  }

  lemma NeutralNewline(p: string)
    requires Neutral(p)
    ensures Neutral(p + "\n")
  {
    var u := p + "\n";
    forall k | 0 <= k <= |p| ensures LexAt(u, k) == LexAt(p, k) { LexPrefix(p, "\n", k); }
    forall k | 0 <= k < |u| ensures !OpensAt(u, k) {
      if k < |p| { assert !OpensAt(p, k) && u[k] == p[k]; }
    }
  }

  lemma TrimNewlines()
    ensures TrimLeft("\n") == "" && TrimRight("\n") == "" && TrimLeft("") == "" && TrimRight("") == ""
  {
    assert IsSpace('\n') && "\n"[1..] == "" && "\n"[..0] == "";
  }

  lemma TrimWrapped(x: string)
    requires x != "" && Trimmed(x)
    ensures TrimSpace("\n" + x + "\n") == x && TrimSpace(x + "\n") == x && TrimSpace("\n" + x) == x
  {
    TrimNewlines();
    TrimAround("\n", x, "\n");
    TrimAround("", x, "\n");
    TrimAround("\n", x, "");
    assert "" + x + "" == x;
    assert "" + x + "\n" == x + "\n";
    assert "\n" + x + "" == "\n" + x;
  }

  ghost function Body(tag: string, o: string): string { tag + "\n" + o + "\n" }

  lemma InnerPlain(o: string)
    requires Complete(o)
    ensures Inner(Body("", o)) == o
  {
    CompleteShape(o);
    assert Body("", o) == "\n" + o + "\n";
    TrimWrapped(o);
    assert TrimTag(o) == o by { assert "json"[0] == 'j'; }
    TrimmedStays(o);
  }

  lemma InnerTagged(o: string)
    requires Complete(o)
    ensures Inner(Body("json", o)) == o
  {
    CompleteShape(o);
    var x := "json\n" + o;
    assert Body("json", o) == x + "\n";
    assert x[0] == 'j' && x[|x| - 1] == o[|o| - 1];
    TrimWrapped(x);
    assert TrimTag(x) == "\n" + o by { assert x[..4] == "json" && x[4..] == "\n" + o; }
    TrimWrapped(o);
  }

  ghost function Fenced(tag: string, o: string): string { "```" + Body(tag, o) + "```" }

  lemma BodyIsFenceFree(tag: string, o: string)
    requires (tag == "" || tag == "json") && FenceFree(o)
    ensures FenceFree(Body(tag, o)) && Body(tag, o)[|Body(tag, o)| - 1] == '\n'
  {
    var b, n := Body(tag, o), |tag| + 1;
    assert b[n - 1] == '\n' && b[|b| - 1] == '\n';
    forall k | 0 <= k ensures !FenceAt(b, k) {
      assert k < |tag| ==> b[k] == tag[k];
      assert k >= n && FenceAt(b, k) ==> FenceAt(o, k - n);
    }
  }

  lemma FenceParts(p: string, body: string, q: string)
    ensures var s, e := p + "```" + body + "```" + q, |p| + 3 + |body|;
      |s| == e + 3 + |q| && s[..|p|] == p && s[|p| + 3..e] == body && s[e + 3..] == q
      && FenceAt(s, |p|) && FenceAt(s, e)
  {
  }

  /** The fence pair around a body is found. */
  lemma FencePositions(s: string, a: nat, e: nat)
    requires a + 3 < e && e + 3 <= |s| && FenceAt(s, a) && FenceAt(s, e)
    requires '`' !in s[..a] && FenceFree(s[a + 3..e]) && s[e - 1] != '`'
    ensures NextFence(s, 0) == a && NextFence(s, a + 3) == e
  {
    forall k | 0 <= k < a ensures !FenceAt(s, k) { assert s[..a][k] == s[k]; }
    forall k | a + 3 <= k < e ensures !FenceAt(s, k) {
      if FenceAt(s, k) { assert FenceAt(s[a + 3..e], k - a - 3); }
    }
  }

  lemma UnwrapFenced(p: string, tag: string, o: string, q: string)
    requires '`' !in p && (tag == "" || tag == "json") && Complete(o) && FenceFree(o)
    ensures Unwrap(p + "```" + Body(tag, o) + "```" + q) == Some(TrimSpace(Join3(p, o, q)))
  {
    var body := Body(tag, o);
    var s, e := p + "```" + body + "```" + q, |p| + 3 + |body|;
    BodyIsFenceFree(tag, o);
    FenceParts(p, body, q);
    assert s[e - 1] == s[|p| + 3..e][|body| - 1];
    FencePositions(s, |p|, e);
    InnerOfBody(tag, o);
  }

  lemma InnerOfBody(tag: string, o: string)
    requires (tag == "" || tag == "json") && Complete(o)
    ensures Inner(Body(tag, o)) == o
  {
    if tag == "" { InnerPlain(o); } else { InnerTagged(o); }
  }

  /** A complete object text between a fence pair is what gets extracted,
      whatever harmless text precedes the fence and whatever text follows it. */
  lemma FencedObjectIsExtracted(p: string, tag: string, o: string, q: string)
    requires Preamble(p) && (tag == "" || tag == "json") && Complete(o) && FenceFree(o)
    ensures Extract(p + Fenced(tag, o) + q) == Some(o)
  {
    var f := Fenced(tag, o);
    assert f[0] == '`' && f[|f| - 1] == '`';
    TrimAround(p, f, q);
    var p', q' := TrimLeft(p), TrimRight(q);
    TrimLeftSuffix(p);
    TrimLeftTrims(p);
    NeutralTrim(p);
    assert p' + f + q' == p' + "```" + Body(tag, o) + "```" + q';
    UnwrapFenced(p', tag, o, q');
    KeptAfterUnwrap(p', o, q');
    EmbeddedKept(p', o, TrimSpace(Join3(p', o, q')));
  }

  lemma {:induction false} TrimLeftSuffix(p: string)
    ensures forall c :: c in TrimLeft(p) ==> c in p
  {
    if p != "" && IsSpace(p[0]) { TrimLeftSuffix(p[1..]); }
  }

  /** What stays in front: the preamble, if any is left, and the object. */
  ghost function Front(p: string, o: string): string { if p == "" then o else p + "\n" + o }

  lemma KeptAfterUnwrap(p: string, o: string, q: string)
    requires Complete(o) && (p == "" || !IsSpace(p[0]))
    ensures Front(p, o) <= TrimSpace(Join3(p, o, q))
  {
    CompleteShape(o);
    if p == "" {
      assert p + "\n" + o + "\n" + q == "\n" + o + ("\n" + q);
      TrimAround("\n", o, "\n" + q);
      assert TrimLeft("\n") == TrimLeft("") == "" by { assert "\n"[1..] == ""; }
      assert "" + o + TrimRight("\n" + q) == o + TrimRight("\n" + q);
    } else {
      var x := p + "\n" + o;
      assert p + "\n" + o + "\n" + q == "" + x + ("\n" + q);
      TrimAround("", x, "\n" + q);
      assert "" + x + TrimRight("\n" + q) == x + TrimRight("\n" + q);
    }
  }

  lemma FrontIsAnchored(p: string, o: string)
    requires Complete(o) && FenceFree(o) && '`' !in p && (p == "" || !IsSpace(p[0]))
    ensures Anchored(Front(p, o))
  {
    CompleteShape(o);
    var x := Front(p, o);
    if p != "" {
      forall i | 0 <= i ensures !FenceAt(x, i) {
        assert i <= |p| ==> x[i] == if i < |p| then p[i] else '\n';
        assert i > |p| && FenceAt(x, i) ==> FenceAt(o, i - |p| - 1);
      }
    }
  }

  lemma EmbeddedKept(p: string, o: string, s: string)
    requires Neutral(p) && '`' !in p && (p == "" || !IsSpace(p[0]))
    requires Complete(o) && FenceFree(o) && Front(p, o) <= s
    ensures FirstBalanced(Strip(s)) == Some(o)
  {
    FrontIsAnchored(p, o);
    var x := Front(p, o);
    StripKeeps(x, s);
    var t := Strip(s)[|x|..];
    var pre := if p == "" then "" else p + "\n";
    if p != "" { NeutralNewline(p); }
    assert Strip(s) == pre + o + t;
    EmbeddedObject(pre, o, t);
  }

  /** End to end: any text of a JSON object, however it is laid out, is parsed
      to that object when it stands between fences. */
  lemma FencedTextIsParsed(p: string, tag: string, o: string, v: Json, q: string)
    requires ReadValue(o) == Some((v, "")) && v.Object? && Skip(o) == o && FenceFree(o)
    requires Preamble(p) && (tag == "" || tag == "json")
    ensures Parse(p + Fenced(tag, o) + q) == Some(v)
  {
    ScannerAgreesWithReader(o, v, "");
    assert Taken(o, "") == o;
    FencedObjectIsExtracted(p, tag, o, q);
  }

  /** In particular its canonical text. */
  lemma FencedTreeIsParsed(p: string, tag: string, v: Json, q: string)
    requires v.Object? && WellFormed(v) && FenceFree(Encode(v))
    requires Preamble(p) && (tag == "" || tag == "json")
    ensures Parse(p + Fenced(tag, Encode(v)) + q) == Some(v)
  {
    ValueRoundTrip(v, "");
    assert Encode(v) + "" == Encode(v);
    EncodeStarts(v);
    NothingToSkip(Encode(v));
    FencedTextIsParsed(p, tag, Encode(v), v, q);
  }

  /** What is parsed is an object: a cut starts with a brace. */
  lemma ParsedIsObject(raw: string)
    requires Parse(raw).Some?
    ensures Parse(raw).value.Object?
  {
    var o := Extract(raw).value;
    ResultIsComplete(Strip(TrimSpace(raw)));
    CompleteShape(o);
    NothingToSkip(o);
    BraceGivesObject(o);
  }

  lemma BraceGivesObject(t: string)
    requires t != "" && t[0] == '{' && ReadToken(t).Some?
    ensures ReadToken(t).value.0.Object?
  {
    FieldsGiveObject(Skip(t[1..]), map[]);
  }

  lemma {:induction false} FieldsGiveObject(t: string, acc: map<string, Json>)
    ensures ReadFields(t, acc).Some? ==> ReadFields(t, acc).value.0.Object?
    decreases |t|
  {
    if ReadFields(t, acc).Some? {
      var acc' := FieldsTurn(t, acc);
      if AfterField(t)[0] == ',' { FieldsGiveObject(AfterField(t)[1..], acc'); }
    }
  }
}
