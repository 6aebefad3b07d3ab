/** Views and judges are stored as the JSON text of their structs and read again
    from that text by the parser that reads model replies, fences and all. */
module StoredView {
  import opened Text
  import opened Json
  import opened BalancedObject
  import opened LenientParser
  import opened StructText
  import opened Replies
  import opened EscapedTicks

  // -------------------------------------------- what stripping does to JSON text

  /** The text in front of the first fence. */
  ghost predicate FenceFront(p: string) { p != "" && !IsSpace(p[0]) && forall i :: 0 <= i ==> !FenceAt(p, i) }

  predicate EndsInBrace(s: string) { s != "" && s[|s| - 1] == '}' }

  lemma NoFenceInFront(p: string, s: string)
    requires FenceFront(p) && p + "\n" <= s
    ensures forall i :: 0 <= i <= |p| ==> !FenceAt(s, i)
  {
    forall i | 0 <= i <= |p| ensures !FenceAt(s, i) {
      assert !FenceAt(p, i);
      assert s[|p|] == (p + "\n")[|p|] == '\n';
      assert forall k :: 0 <= k < |p| ==> s[k] == (p + "\n")[k];
    }
  }

  lemma JoinKeeps(front: string, inner: string, back: string)
    requires front != "" && !IsSpace(front[0]) && EndsInBrace(back)
    ensures var j := Join3(front, inner, back); TrimSpace(j) == j && front + "\n" <= j && EndsInBrace(j)
  {
    var j := Join3(front, inner, back);
    assert j == front + "\n" + (inner + "\n" + back);
    assert j[0] == front[0] && j[|j| - 1] == back[|back| - 1];
    TrimmedStays(j);
  }

  /** Behind a fence of a text that ends in a brace there is something left. */
  lemma BehindFence(s: string, end: nat)
    requires EndsInBrace(s) && FenceAt(s, end)
    ensures EndsInBrace(s[end + 3..])
  {
  }

  lemma UnwrapKeepsBreak(p: string, s: string)
    requires FenceFront(p) && p + "\n" <= s && EndsInBrace(s) && Unwrap(s).Some?
    ensures p + "\n" <= Unwrap(s).value && EndsInBrace(Unwrap(s).value)
  {
    NoFenceInFront(p, s);
    var start := NextFence(s, 0);
    var end := NextFence(s, start + 3);
    BehindFence(s, end);
    assert s[0] == (p + "\n")[0];
    JoinKeeps(s[..start], Inner(s[start + 3..end]), s[end + 3..]);
    assert p + "\n" <= s[..start];
  }

  /** The line break put in place of the first fence stays. */
  lemma {:induction false} StripKeepsBreak(p: string, s: string)
    requires FenceFront(p) && p + "\n" <= s && EndsInBrace(s)
    ensures p + "\n" <= Strip(s)
    decreases |s|
  {
    if Unwrap(s).Some? {
      UnwrapKeepsBreak(p, s);
      StripKeepsBreak(p, Unwrap(s).value);
    }
  }

  /** A text that is read as an object, with nothing around it. */
  ghost predicate ReadsAs(o: string, v: Json) { ReadValue(o) == Some((v, "")) && v.Object? && Skip(o) == o }

  lemma ReadIsComplete(o: string, v: Json)
    requires ReadsAs(o, v)
    ensures Complete(o) && Tidy(o) && Trimmed(o) && o != "" && o[0] == '{' && EndsInBrace(o)
  {
    ScannerAgreesWithReader(o, v, "");
    assert Taken(o, "") == o;
    CompleteShape(o);
  }

  lemma CompleteBalance(o: string, k: nat)
    requires Complete(o) && 0 < k < |o|
    ensures Balance(o, 0, k) > 0
  {
    var a: nat, b: nat :| BalancedSlice(o, a, b);
    FirstBalancedIs(o, a, b);
    assert |o[a..b]| == |o|;
  }

  /** Texts with a common front are scanned alike in it. */
  lemma CommonFront(p: string, x: string, y: string, k: nat)
    requires k <= |p|
    ensures LexAt(p + x, k) == LexAt(p + y, k) && Balance(p + x, 0, k) == Balance(p + y, 0, k)
  {
    LexPrefix(p, x, k);
    LexPrefix(p, y, k);
    BalanceShift("", p, x, 0, k);
    BalanceShift("", p, y, 0, k);
    assert "" + p + x == p + x && "" + p + y == p + y;
  }

  lemma UnmarshalledIsTidy(x: string)
    requires Complete(x) && Unmarshal(x).Some?
    ensures Tidy(x)
  {
    var rest := ReadValue(x).value.1;
    ValueConsumes(x);
    CompleteShape(x);
    AllSkipped(rest);
    assert x == Taken(x, rest) + rest;
    assert rest == "";
  }

  /** A text does not decode if one of its literals holds a line break. */
  lemma BrokenLiteral(x: string, i: nat)
    requires Complete(x) && i < |x| && LexAt(x, i).inStr && x[i] == '\n'
    ensures Unmarshal(x) == None
  {
    assert !TidyAt(x, i);
    if Unmarshal(x).Some? { UnmarshalledIsTidy(x); }
  }

  lemma {:induction false} AllSkipped(t: string)
    ensures Skip(t) == "" && t != "" ==> t[|t| - 1] != '}'
  {
    if t != "" && JsonSpace(t[0]) { AllSkipped(t[1..]); }
  }

  /** A backtick of a tidy text stands inside a literal. */
  lemma TickIsQuoted(o: string, n: nat)
    requires Tidy(o) && o != "" && o[0] == '{' && n < |o| && o[n] == '`'
    ensures n > 0 && LexAt(o, n).inStr
  {
    assert TidyAt(o, n);
  }

  /** Up to position n two texts with the same front are scanned alike. */
  lemma FrontAlike(o: string, s: string, n: nat, k: nat)
    requires k <= n <= |o| && o[..n] <= s
    ensures LexAt(o, k) == LexAt(s, k) && Balance(o, 0, k) == Balance(s, 0, k)
    ensures k < n ==> o[k] == s[k]
  {
    var p := o[..n];
    assert o == p + o[n..] && s == p + s[n..];
    CommonFront(p, o[n..], s[n..], k);
    if k < n { assert p[k] == s[k]; }
  }

  /** Where a text opens with a brace the slice starts there. */
  lemma OpensFirst(s: string) returns (b: nat)
    requires s != "" && OpensAt(s, 0) && FirstBalanced(s).Some?
    ensures 0 < b <= |s| && Balance(s, 0, b) == 0 && FirstBalanced(s) == Some(s[..b])
  {
    var a: nat;
    a, b :| BalancedSlice(s, a, b);
    FirstBalancedIs(s, a, b);
    assert a == 0 && s[0..b] == s[..b];
  }

  lemma SliceAlike(s: string, b: nat, k: nat)
    requires k <= b <= |s|
    ensures LexAt(s[..b], k) == LexAt(s, k)
  {
    LexPrefix(s[..b], s[b..], k);
    assert s[..b] + s[b..] == s;
  }

  lemma FrontIsUnbalanced(o: string, n: nat, s: string, b: nat)
    requires Complete(o) && n < |o| && o[..n] <= s && 0 < b <= |s| && Balance(s, 0, b) == 0
    ensures n < b
  {
    if b <= n {
      CompleteBalance(o, b);
      FrontAlike(o, s, n, b);
    }
  }

  /** Where a fence of an object's text has become a line break, nothing decodes. */
  lemma BreakIsFatal(o: string, v: Json, n: nat, s: string)
    requires ReadsAs(o, v) && n < |o| && o[n] == '`' && o[..n] + "\n" <= s && FirstBalanced(s).Some?
    ensures Unmarshal(FirstBalanced(s).value) == None
  {
    ReadIsComplete(o, v);
    TickIsQuoted(o, n);
    FrontAlike(o, s, n, 0);
    var b := OpensFirst(s);
    FrontIsUnbalanced(o, n, s, b);
    FrontAlike(o, s, n, n);
    SliceAlike(s, b, n);
    ResultIsComplete(s);
    assert s[n] == (o[..n] + "\n")[n];
    BrokenLiteral(s[..b], n);
  }

  // -------------------------------------------------------------------- theorems

  /** The text of a JSON object is parsed to the object exactly if it does not hold
      two fences; if it does, it is not parsed at all, for the fences can only stand
      inside string literals, where they are replaced by line breaks. */
  lemma ParsesExactlyIf(o: string, v: Json)
    requires ReadsAs(o, v)
    ensures Parse(o) == if Unwrap(o).None? then Some(v) else None
  {
    ReadIsComplete(o, v);
    TrimmedStays(o);
    if Unwrap(o).Some? { TwoFencesFail(o, v); }
  }

  lemma FrontOfFirst(o: string, start: nat)
    requires o != "" && o[0] == '{' && FenceAt(o, start) && forall k :: 0 <= k < start ==> !FenceAt(o, k)
    ensures FenceFront(o[..start])
  {
    forall i | 0 <= i ensures !FenceAt(o[..start], i) {
      assert i < start ==> !FenceAt(o, i);
    }
  }

  /** Unwrapping puts a line break where the first fence was. */
  lemma UnwrapBreaks(o: string)
    requires Unwrap(o).Some? && o != "" && o[0] == '{' && EndsInBrace(o)
    ensures var start := NextFence(o, 0);
      start >= 0 && FenceAt(o, start) && FenceFront(o[..start])
      && o[..start] + "\n" <= Unwrap(o).value && EndsInBrace(Unwrap(o).value)
  {
    var start := NextFence(o, 0);
    var end := NextFence(o, start + 3);
    var p := o[..start];
    FrontOfFirst(o, start);
    BehindFence(o, end);
    JoinKeeps(p, Inner(o[start + 3..end]), o[end + 3..]);
  }

  lemma TwoFencesFail(o: string, v: Json)
    requires ReadsAs(o, v) && Unwrap(o).Some? && TrimSpace(o) == o
    ensures Parse(o) == None
  {
    ReadIsComplete(o, v);
    UnwrapBreaks(o);
    var start := NextFence(o, 0);
    StripKeepsBreak(o[..start], Unwrap(o).value);
    assert Strip(o) == Strip(Unwrap(o).value);
    if Extract(o).Some? { BreakIsFatal(o, v, start, Strip(o)); }
  }

  /** Whatever is decoded from JSON text is read from that text exactly if it has
      what it needs and the text does not hold two fences. */
  lemma ReadExactlyIf<T>(o: string, v: Json, x: T, decode: Json -> Option<T>, valid: T -> bool)
    requires ReadsAs(o, v) && decode(v) == Some(x)
    ensures ParseLenient(o, decode, valid) == if valid(x) && Unwrap(o).None? then Some(x) else None
  {
    ParsesExactlyIf(o, v);
  }

  /** The texts a view, and a judge, cannot do without. */
  function NeededOfView(v: View): seq<string> {
    [v.qualification, v.suggestedReply, v.decisiveInsight, v.tradeoffOrObjection, v.dependsOn, v.fallback]
  }

  function NeededOfJudge(j: Judge): seq<string> {
    [j.qualification, j.recommendedReply, j.why, j.acceptedCost, j.changeCourseIf]
  }

  lemma ViewNeeds(v: View)
    ensures ValidView(v) <==> "" !in NeededOfView(v)
  {
  }

  lemma JudgeNeeds(j: Judge)
    ensures ValidJudge(j) <==> "" !in NeededOfJudge(j)
  {
  }

  /** A stored view is read back, in any layout, exactly if it has all its texts and
      its JSON text does not hold two fences. */
  lemma ReadBackExactlyIf(view: View, o: string)
    requires ReadsAs(o, DocTree(ViewDoc(view)))
    ensures ParseView(o) == if "" !in NeededOfView(view) && Unwrap(o).None? then Some(view) else None
  {
    ViewNeeds(view);
    ViewRoundTrip(view);
    ReadExactlyIf(o, DocTree(ViewDoc(view)), view, v => DecodeView(v), v => ValidView(v));
  }

  /** And so is a stored judge. */
  lemma JudgeReadBackExactlyIf(judge: Judge, o: string)
    requires ReadsAs(o, DocTree(JudgeDoc(judge)))
    ensures ParseJudge(o) == if "" !in NeededOfJudge(judge) && Unwrap(o).None? then Some(judge) else None
  {
    JudgeNeeds(judge);
    JudgeRoundTrip(judge);
    ReadExactlyIf(o, DocTree(JudgeDoc(judge)), judge, v => DecodeJudge(v), j => ValidJudge(j));
  }

  /** The text of a comparison is parsed to it exactly if it does not hold two fences. */
  lemma PairwiseReadExactlyIf(reply: PairwiseReply, o: string)
    requires ReadsAs(o, DocTree(StructOf(PairwiseFields(reply))))
    ensures ParsePairwise(o) == if Unwrap(o).None? then Some(reply) else None
  {
    PairwiseRoundTrip(reply);
    ReadExactlyIf(o, DocTree(StructOf(PairwiseFields(reply))), reply, v => DecodePairwise(v), r => true);
  }

  /** And so is that of a coverage table. */
  lemma CoverageReadExactlyIf(rows: seq<CoverageRow>, o: string)
    requires ReadsAs(o, CoverageTree(rows))
    ensures ParseCoverage(o) == if Unwrap(o).None? then Some(rows) else None
  {
    CoverageRoundTrip(rows);
    ReadExactlyIf(o, CoverageTree(rows), rows, v => DecodeCoverage(v), r => true);
  }

  /** A view between fences is read whatever surrounds it, if it holds no fence. */
  lemma FencedViewIsRead(p: string, tag: string, view: View, o: string, q: string)
    requires ReadsAs(o, DocTree(ViewDoc(view))) && FenceFree(o) && Preamble(p) && (tag == "" || tag == "json")
    ensures ParseView(p + Fenced(tag, o) + q) == if ValidView(view) then Some(view) else None
  {
    FencedTextIsParsed(p, tag, o, DocTree(ViewDoc(view)), q);
    ViewRoundTrip(view);
  }

  // ----------------------------------------------------- accepted, stored and lost

  lemma NoTicksNoFences(o: string)
    requires TICK !in o
    ensures Unwrap(o).None?
  {
    assert forall k :: 0 <= k < |o| ==> o[k] != TICK;
  }

  /** With its backticks escaped the text is read as the same tree, and holds no fence. */
  lemma EscapedReadsAs(o: string, v: Json)
    requires ReadsAs(o, v)
    ensures ReadsAs(EscapeTicks(o), v) && Unwrap(EscapeTicks(o)).None?
  {
    ValueEscaped(o);
    SkipEscaped(o);
    NoTicksLeft(o);
    NoTicksNoFences(EscapeTicks(o));
  }

  /** Every view that has its texts is read from some reply: its JSON text with the
      backticks escaped. */
  lemma EveryViewHasAReply(view: View, o: string)
    requires ReadsAs(o, DocTree(ViewDoc(view))) && ValidView(view)
    ensures ParseView(EscapeTicks(o)) == Some(view)
    ensures Unwrap(o).Some? ==> ParseView(o) == None
  {
    ViewNeeds(view);
    EscapedReadsAs(o, DocTree(ViewDoc(view)));
    ReadBackExactlyIf(view, EscapeTicks(o));
    ReadBackExactlyIf(view, o);
  }

  /** What is stored for a view: json.Marshal of its struct. */
  ghost function StoredText(view: View): string { DocText(ViewDoc(view)) }

  lemma StoredReadsAs(view: View)
    ensures ReadsAs(StoredText(view), DocTree(ViewDoc(view)))
  {
    ViewDocIsWellFormed(view);
    StructReadsAs(ViewDoc(view));
  }

  lemma StructReadsAs(d: Doc)
    requires d.Struct? && WellFormedDoc(d)
    ensures ReadsAs(DocText(d), DocTree(d))
  {
    var o := DocText(d);
    DocRoundTrip(d, "");
    assert o + "" == o && o[0] == '{';
    NothingToSkip(o);
  }

  lemma DangerIsWellFormed(danger: Danger)
    ensures WellFormedDoc(StructOf(DangerFields(danger)))
  {
    assert DistinctFields(DangerFields(danger));
    WrittenIsWellFormed(DangerFields(danger));
  }

  lemma ViewDocIsWellFormed(view: View)
    ensures WellFormedDoc(ViewDoc(view))
  {
    DangerIsWellFormed(view.danger);
    ViewFieldNames(view);
    WrittenIsWellFormed(ViewFields(view));
  }

  lemma {:induction false} EncodedConcat(a: string, b: string)
    ensures EncodeChars(a + b) == EncodeChars(a) + EncodeChars(b)
  {
    if a == "" {
      assert a + b == b;
    } else {
      EncodedConcat(a[1..], b);
      EncodedFirst(a, b);
      Reassociate(EncodeChar(a[0]), EncodeChars(a[1..]), EncodeChars(b));
    }
  }

  lemma EncodedFirst(a: string, b: string)
    requires a != ""
    ensures EncodeChars(a + b) == EncodeChar(a[0]) + EncodeChars(a[1..] + b)
  {
    assert (a + b)[0] == a[0] && (a + b)[1..] == a[1..] + b;
  }

  lemma FenceIsEncoded()
    ensures EncodeChars(FENCE) == FENCE
  {
    assert EncodeChar(TICK) == "`" && FENCE[2..] == "`" && FENCE[1..] == "``";
    assert EncodeChars("") == "" && "`"[1..] == "" && "``"[1..] == "`";
    assert EncodeChars("`") == "`";
    assert EncodeChars("``") == "``";
  }

  /** Fences are written as they are. */
  lemma EncodedFences(x: string, y: string, z: string)
    ensures EncodeChars(x + FENCE + y + FENCE + z)
         == EncodeChars(x) + FENCE + EncodeChars(y) + FENCE + EncodeChars(z)
  {
    FenceIsEncoded();
    EncodedConcat(x + FENCE + y + FENCE, z);
    EncodedConcat(x + FENCE + y, FENCE);
    EncodedConcat(x + FENCE, y);
    EncodedConcat(x, FENCE);
  }

  const FENCE: string := "```"

  lemma TwoFencesAreFound(s: string, a: string, b: string, c: string)
    requires s == a + FENCE + b + FENCE + c
    ensures Unwrap(s).Some?
  {
    var i, j := |a|, |a| + 3 + |b|;
    assert FenceAt(s, i) && FenceAt(s, j);
    var start := NextFence(s, 0);
    assert 0 <= start <= i;
  }

  /** A view one of whose texts holds two fences is read from a reply, but not from
      what is then stored for it. */
  lemma StoredButLost(view: View, x: string, y: string, z: string)
    requires ValidView(view) && x + FENCE + y + FENCE + z in ViewTextsOf(view)
    ensures ParseView(EscapeTicks(StoredText(view))) == Some(view)
    ensures ParseView(StoredText(view)) == None
  {
    StoredReadsAs(view);
    FencesAreStored(view, x, y, z);
    EveryViewHasAReply(view, StoredText(view));
  }

  lemma FencesAreStored(view: View, x: string, y: string, z: string)
    requires x + FENCE + y + FENCE + z in ViewTextsOf(view)
    ensures Unwrap(StoredText(view)).Some?
  {
    var j := TextIsWritten(view, x + FENCE + y + FENCE + z);
    var a, b := MemberInside(ViewDoc(view), 0, j);
    EncodedFences(x, y, z);
    var front, middle, back := "{" + a + "\"" + EncodeChars(x), EncodeChars(y), EncodeChars(z) + "\"" + b + "}";
    Spread(a, EncodeChars(x), middle, EncodeChars(z), b);
    TwoFencesAreFound(StoredText(view), front, middle, back);
  }

  lemma Spread(a: string, x: string, y: string, z: string, b: string)
    ensures "{" + (a + ("\"" + (x + FENCE + y + FENCE + z) + "\"") + b) + "}"
         == ("{" + a + "\"" + x) + FENCE + y + FENCE + (z + "\"" + b + "}")
  {
  }

  lemma TextIsWritten(view: View, t: string) returns (j: nat)
    requires t in ViewTextsOf(view) && t != ""
    ensures j < |ViewDoc(view).members| && ViewDoc(view).members[j].1 == Leaf(Str(t))
  {
    var k :| 0 <= k < |ViewTextsOf(view)| && ViewTextsOf(view)[k] == t;
    assert ViewFields(view)[k + 1].1 == TextDoc(t);
    ViewFieldNames(view);
    j := FieldIsWritten(ViewFields(view), k + 1, Leaf(Str(t)));
  }

  lemma FieldIsWritten(fields: Fields, i: nat, x: Doc) returns (j: nat)
    requires DistinctFields(fields) && i < |fields| && fields[i].1 == Some(x)
    ensures j < |StructOf(fields).members| && StructOf(fields).members[j].1 == x
  {
    WrittenAre(fields);
    j :| 0 <= j < |Written(fields)| && Written(fields)[j] == (fields[i].0, x);
  }

  const LOST: View := View(Danger(false, ""), "q", "``````", "", "i", "t", "d", "f")

  /** Such a view. */
  lemma LostViewIsLost()
    ensures ParseView(EscapeTicks(StoredText(LOST))) == Some(LOST) && ParseView(StoredText(LOST)) == None
  {
    assert ViewTextsOf(LOST)[1] == "" + FENCE + "" + FENCE + "";
    StoredButLost(LOST, "", "", "");
  }
}
