/** The blind A/B comparison of two responses, with its one reversed call. */
module Pairwise {
  import opened Text

  /** An answer over the displayed pair; Unknown is outside the vocabulary. */
  datatype Verdict = A | B | Tie | Unable | Unknown(text: string)

  datatype Margin = Clear | Close | Vague(text: string)

  datatype Answer = Answer(verdict: Verdict, margin: Margin, difference: string)

  /** The answer in terms of the two responses. */
  datatype Side = LeftWins | RightWins | Draw | NoVerdict

  datatype Response = Response(id: string, role: string, rendered: string)

  datatype Row = Row(
    leftId: string, rightId: string, leftShownAsA: bool, verdict: Verdict, margin: Margin, side: Side,
    difference: string, isReversal: bool, final: bool)

  // -------------------------------------------------------------------- a call

  /** One chat: it fails, or its text holds an answer or not. */
  datatype Chat = Failed | Unreadable | Readable(answer: Answer)

  /** A grader answers the displayed pair; the second component is its answer to the retry. */
  type Grader = (string, string, string) -> (Chat, Chat)

  predicate ValidAnswer(a: Answer) { !a.verdict.Unknown? && !a.margin.Vague? }

  /** The answer, if there is one, and the number of chats it took. */
  function PairwiseCall(chats: (Chat, Chat)): (r: (Option<Answer>, nat))
    ensures r.0.Some? ==> ValidAnswer(r.0.value)
    ensures r.1 <= 2
  {
    match chats.0
    case Failed => (None, 1)
    case Readable(answer) => if ValidAnswer(answer) then (Some(answer), 1) else Retried(chats.1)
    case Unreadable => Retried(chats.1)
  }

  function Retried(chat: Chat): (r: (Option<Answer>, nat))
    ensures r.0.Some? ==> ValidAnswer(r.0.value)
  {
    if chat.Readable? && ValidAnswer(chat.answer) then (Some(chat.answer), 2) else (None, 2)
  }

  predicate NeedsReversal(a: Answer) { a.verdict.Tie? || a.verdict.Unable? || a.margin.Close? }

  function Normalise(v: Verdict, leftShownAsA: bool): Side {
    match v
    case A => if leftShownAsA then LeftWins else RightWins
    case B => if leftShownAsA then RightWins else LeftWins
    case Tie => Draw
    case _ => NoVerdict
  }

  // -------------------------------------------------------------- one comparison

  /** What one grader's comparison writes, returns and costs. */
  datatype Comparison = Comparison(rows: seq<Row>, final: Option<Row>, chats: nat)

  function FirstRow(left: Response, right: Response, leftAsA: bool, a: Answer): Row {
    Row(left.id, right.id, leftAsA, a.verdict, a.margin, Normalise(a.verdict, leftAsA), a.difference, false,
        !NeedsReversal(a))
  }

  function FinalSide(first: Side, reversed: Side): Side {
    if first == reversed && (first == LeftWins || first == RightWins) then first else Draw
  }

  function SecondRow(left: Response, right: Response, leftAsA: bool, a: Answer, first: Side): Row {
    var side := FinalSide(first, Normalise(a.verdict, leftAsA));
    Row(left.id, right.id, leftAsA, a.verdict, a.margin, side, a.difference, true, true)
  }

  /** The call with the left response shown as A, or as B. */
  function Ask(g: Grader, left: Response, right: Response, leftAsA: bool): (Option<Answer>, nat) {
    var (a, b) := if leftAsA then (left.rendered, right.rendered) else (right.rendered, left.rendered);
    PairwiseCall(g(left.role, a, b))
  }

  function ComparisonOf(left: Response, right: Response, g: Grader, leftAsA: bool): Comparison {
    var (answer, n) := Ask(g, left, right, leftAsA);
    if answer.None? then Comparison([], None, n) else
    var first := FirstRow(left, right, leftAsA, answer.value);
    if first.final then Comparison([first], Some(first), n) else
    var (again, m) := Ask(g, left, right, !leftAsA);
    if again.None? then Comparison([first], None, n + m) else
    var second := SecondRow(left, right, !leftAsA, again.value, first.side);
    Comparison([first, second], Some(second), n + m)
  }

  /** The table of pairwise rows and the number of chats made. */
  class Service {
    var rows: seq<Row>
    var chats: nat

    method Call(g: Grader, role: string, a: string, b: string) returns (answer: Option<Answer>)
      modifies `chats
      ensures (answer, chats - old(chats)) == PairwiseCall(g(role, a, b))
    {
      chats := chats + 1;
      var first := g(role, a, b).0;
      if first == Failed { return None; }
      if first.Readable? && ValidAnswer(first.answer) { return Some(first.answer); }
      chats := chats + 1;
      var retry := g(role, a, b).1;
      if !retry.Readable? || !ValidAnswer(retry.answer) { return None; }
      return Some(retry.answer);
    }

    method CompareOne(left: Response, right: Response, g: Grader, leftAsA: bool) returns (final: Option<Row>)
      modifies this
      ensures var c := ComparisonOf(left, right, g, leftAsA);
        rows == old(rows) + c.rows && final == c.final && chats == old(chats) + c.chats
    {
      var firstA, firstB := left.rendered, right.rendered;
      if !leftAsA { firstA, firstB := right.rendered, left.rendered; }
      var answer := Call(g, left.role, firstA, firstB);
      if answer.None? { return None; }
      var a := answer.value;
      var side1 := Normalise(a.verdict, leftAsA);
      var first := Row(left.id, right.id, leftAsA, a.verdict, a.margin, side1, a.difference, false, !NeedsReversal(a));
      rows := rows + [first];
      if !NeedsReversal(a) { return Some(first); }
      var again := Call(g, left.role, firstB, firstA);
      if again.None? { return None; }
      var b := again.value;
      var reversed, side := Normalise(b.verdict, !leftAsA), Draw;
      if first.side == reversed && (first.side == LeftWins || first.side == RightWins) { side := first.side; }
      var second := Row(left.id, right.id, !leftAsA, b.verdict, b.margin, side, b.difference, true, true);
      rows := rows + [second];
      return Some(second);
    }
  }

  // -------------------------------------------------------------------- theorems

  predicate Decides(c: Chat) {
    c.Readable? && c.answer.verdict in {A, B, Tie, Unable} && c.answer.margin in {Clear, Close}
  }

  /** A first answer within the vocabulary is taken; after any other that is not a
      failure the answer to the retry is. */
  lemma PairwiseCallIs(chats: (Chat, Chat))
    ensures var r := PairwiseCall(chats);
      if Decides(chats.0) then r == (Some(chats.0.answer), 1)
      else if chats.0.Failed? then r == (None, 1)
      else r.1 == 2 && (r.0.Some? <==> Decides(chats.1)) && (r.0.Some? ==> r.0.value == chats.1.answer)
  {
  }

  /** The row records the answer that was given when the left response was shown as
      A, or as B. */
  predicate Records(r: Row, left: Response, right: Response, g: Grader, leftAsA: bool) {
    var a := Ask(g, left, right, leftAsA).0;
    r.leftId == left.id && r.rightId == right.id && r.leftShownAsA == leftAsA
    && a == Some(Answer(r.verdict, r.margin, r.difference))
  }

  /** A letter names the response that was shown under it. */
  predicate Says(v: Verdict, leftAsA: bool, side: Side) {
    (side == LeftWins <==> v == if leftAsA then A else B)
    && (side == RightWins <==> v == if leftAsA then B else A)
    && (side == Draw <==> v == Tie) && (side == NoVerdict <==> v.Unable? || v.Unknown?)
  }

  /** The first row shows the pair as the coin says and gives the answer's own
      verdict; the second, a reversal, shows it the other way round; and the chats
      are those of the calls that were made. */
  lemma RowsRecord(left: Response, right: Response, g: Grader, leftAsA: bool)
    ensures var c := ComparisonOf(left, right, g, leftAsA);
      |c.rows| <= 2
      && (forall i :: 0 <= i < |c.rows| ==>
            Records(c.rows[i], left, right, g, if i == 0 then leftAsA else !leftAsA)
            && (c.rows[i].isReversal <==> i == 1))
      && (c.rows != [] ==> Says(c.rows[0].verdict, leftAsA, c.rows[0].side))
      && c.chats == Ask(g, left, right, leftAsA).1
           + if c.rows != [] && !c.rows[0].final then Ask(g, left, right, !leftAsA).1 else 0
  {
  }

  function Mirror(s: Side): Side {
    match s
    case LeftWins => RightWins
    case RightWins => LeftWins
    case _ => s
  }

  function MirrorRow(r: Row): Row {
    r.(leftId := r.rightId, rightId := r.leftId, leftShownAsA := !r.leftShownAsA, side := Mirror(r.side))
  }

  /** Swapping the two responses and the coin displays the same pairs, and
      mirrors every row and the verdict. */
  lemma SwapMirrors(left: Response, right: Response, g: Grader, leftAsA: bool)
    requires left.role == right.role
    ensures var c, d := ComparisonOf(left, right, g, leftAsA), ComparisonOf(right, left, g, !leftAsA);
      |d.rows| == |c.rows| && (forall i :: 0 <= i < |c.rows| ==> d.rows[i] == MirrorRow(c.rows[i]))
      && d.chats == c.chats && (d.final.Some? <==> c.final.Some?)
      && (c.final.Some? ==> d.final.value == MirrorRow(c.final.value))
  {
    assert Ask(g, left, right, leftAsA) == Ask(g, right, left, !leftAsA);
    assert Ask(g, left, right, !leftAsA) == Ask(g, right, left, leftAsA);
  }

  /** A comparison that succeeds writes one final row, its last, and returns it;
      its verdict is never unable, and it took at most four chats. */
  lemma OneFinalRow(left: Response, right: Response, g: Grader, leftAsA: bool)
    ensures var c := ComparisonOf(left, right, g, leftAsA);
      c.chats <= 4
      && (c.final.None? ==> forall r :: r in c.rows ==> !r.final)
      && (c.final.Some? ==> c.final.value.side != NoVerdict && c.rows != [] && c.rows[|c.rows| - 1] == c.final.value)
      && (c.final.Some? ==> forall i :: 0 <= i < |c.rows| ==> (c.rows[i].final <==> i == |c.rows| - 1))
  {
    var answer := Ask(g, left, right, leftAsA).0;
    if answer.Some? && !NeedsReversal(answer.value) {
      assert Normalise(answer.value.verdict, leftAsA) != NoVerdict;
    }
  }

  /** A comparison with two rows showed the pair in both orders, because the first
      answer was a tie, unable or close; a side then wins exactly if the letters
      name it both times, which takes two different letters. */
  lemma ReversalNeedsAgreement(left: Response, right: Response, g: Grader, leftAsA: bool)
    requires ComparisonOf(left, right, g, leftAsA).final.Some? && |ComparisonOf(left, right, g, leftAsA).rows| == 2
    ensures var rows := ComparisonOf(left, right, g, leftAsA).rows;
      var first, second := rows[0], rows[1];
      first.leftShownAsA == leftAsA && second.leftShownAsA == !leftAsA
      && (first.verdict == Tie || first.verdict == Unable || first.margin == Close)
      && (second.side == LeftWins <==> (first.verdict, second.verdict) == if leftAsA then (A, B) else (B, A))
      && (second.side == RightWins <==> (first.verdict, second.verdict) == if leftAsA then (B, A) else (A, B))
  {
    var a, b := Ask(g, left, right, leftAsA).0.value, Ask(g, left, right, !leftAsA).0.value;
    var rows := ComparisonOf(left, right, g, leftAsA).rows;
    assert rows[0] == FirstRow(left, right, leftAsA, a);
    assert rows[1] == SecondRow(left, right, !leftAsA, b, Normalise(a.verdict, leftAsA));
  }

  /** Such a grader judges what it is shown, not where: reversing the display
      reverses its verdict and leaves its margin. */
  predicate JudgesContent(g: Grader, left: Response, right: Response) {
    var a, b := Ask(g, left, right, true).0, Ask(g, left, right, false).0;
    a.Some? && b.Some? && a.value.margin == b.value.margin
    && Normalise(a.value.verdict, true) == Normalise(b.value.verdict, false)
  }

  /** For such a grader the coin does not matter, and its verdict stands. */
  lemma CoinDoesNotMatter(left: Response, right: Response, g: Grader, leftAsA: bool)
    requires JudgesContent(g, left, right)
    ensures var c := ComparisonOf(left, right, g, leftAsA);
      var said := Normalise(Ask(g, left, right, true).0.value.verdict, true);
      c.final.Some? && c.final.value.side == if said == NoVerdict then Draw else said
  {
    var a, b := Ask(g, left, right, true).0.value, Ask(g, left, right, false).0.value;
    assert NeedsReversal(a) <==> NeedsReversal(b);
  }

  /** A response that is named wherever it is shown wins, whatever the coin and
      however close the margins. */
  lemma NamedResponseWins(left: Response, right: Response, g: Grader, leftAsA: bool, a: Answer, b: Answer)
    requires g(left.role, left.rendered, right.rendered).0 == Readable(a) && ValidAnswer(a)
    requires g(left.role, right.rendered, left.rendered).0 == Readable(b) && ValidAnswer(b)
    ensures var final := ComparisonOf(left, right, g, leftAsA).final;
      final.Some?
      && (a.verdict == A && b.verdict == B ==> final.value.side == LeftWins)
      && (a.verdict == B && b.verdict == A ==> final.value.side == RightWins)
  {
  }

  /** A grader that names a position rather than a response, and is not sure of
      it, decides nothing. */
  lemma PositionDecidesNothing(left: Response, right: Response, g: Grader, leftAsA: bool)
    requires var a, b := Ask(g, left, right, true).0, Ask(g, left, right, false).0;
      a.Some? && b.Some? && a.value.verdict == b.value.verdict && a.value.margin == b.value.margin == Close
    ensures ComparisonOf(left, right, g, leftAsA).final.Some?
    ensures ComparisonOf(left, right, g, leftAsA).final.value.side == Draw
  {
    var a, b := Ask(g, left, right, leftAsA).0.value, Ask(g, left, right, !leftAsA).0.value;
    assert Normalise(a.verdict, leftAsA) == Mirror(Normalise(b.verdict, !leftAsA));
  }

  // ------------------------------------------------------------- two graders

  /** Two graders that disagree make a tie; None if either comparison failed. */
  function CompareBoth(left: Response, right: Response, g: Grader, h: Grader,
                       coins: (bool, bool)): Option<(Side, bool)>
  {
    var c := ComparisonOf(left, right, g, coins.0).final;
    if c.None? then None else
    var d := ComparisonOf(left, right, h, coins.1).final;
    if d.None? then None
    else if c.value.side == d.value.side then Some((c.value.side, true)) else Some((Draw, false))
  }

  /** A side wins exactly if the final rows of both graders give it the win; the
      graders agree exactly if their final sides are equal, and the result is then
      that side; and swapping responses and coins mirrors the result. */
  lemma BothMustAgree(left: Response, right: Response, g: Grader, h: Grader, coins: (bool, bool))
    requires left.role == right.role
    ensures var r := CompareBoth(left, right, g, h, coins);
      var c, d := ComparisonOf(left, right, g, coins.0).final, ComparisonOf(left, right, h, coins.1).final;
      (r.Some? <==> c.Some? && d.Some?)
      && (r.Some? ==>
            (r.value.0 == LeftWins <==> c.value.side == d.value.side == LeftWins)
            && (r.value.0 == RightWins <==> c.value.side == d.value.side == RightWins)
            && (r.value.1 <==> c.value.side == d.value.side)
            && r.value.0 == (if r.value.1 then c.value.side else Draw) != NoVerdict)
      && CompareBoth(right, left, g, h, (!coins.0, !coins.1))
         == (if r.None? then None else Some((Mirror(r.value.0), r.value.1)))
  {
    SwapMirrors(left, right, g, coins.0);
    SwapMirrors(left, right, h, coins.1);
    OneFinalRow(left, right, g, coins.0);
    OneFinalRow(left, right, h, coins.1);
  }

  /** This grader names the left response under whichever letter it is shown. */
  predicate NamesLeft(g: Grader, left: Response, right: Response) {
    var a, b := g(left.role, left.rendered, right.rendered).0, g(left.role, right.rendered, left.rendered).0;
    a.Readable? && b.Readable? && ValidAnswer(a.answer) && ValidAnswer(b.answer)
    && a.answer.verdict == A && b.answer.verdict == B
  }

  /** A response that both graders name wherever it is shown wins, whatever the coins. */
  lemma BothNameLeft(left: Response, right: Response, g: Grader, h: Grader, coins: (bool, bool))
    requires NamesLeft(g, left, right) && NamesLeft(h, left, right)
    ensures CompareBoth(left, right, g, h, coins) == Some((LeftWins, true))
  {
    var a, b := g(left.role, left.rendered, right.rendered).0, g(left.role, right.rendered, left.rendered).0;
    NamedResponseWins(left, right, g, coins.0, a.answer, b.answer);
    var c, d := h(left.role, left.rendered, right.rendered).0, h(left.role, right.rendered, left.rendered).0;
    NamedResponseWins(left, right, h, coins.1, c.answer, d.answer);
  }
}
