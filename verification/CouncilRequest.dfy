/** What the columns of the request row say at every point of a council run. */
module CouncilRequest {
  import opened Text
  import opened CouncilRows
  import opened CouncilRun
  import opened CouncilInvariant
  import opened CouncilOutcome

  predicate IsDanger(e: Event) { e.SeatDanger? || e.JudgeDanger? }

  ghost predicate DangerTold(log: seq<Event>) { exists e :: e in log && IsDanger(e) }

  /** A usable result in time has been noted but not yet counted for the judge. */
  predicate NotedInHand(hand: Option<Hand>) {
    hand.Some? && hand.value.res.usable && !hand.value.late && hand.value.pc !in {WriteRow, NoteFirstUsable}
  }

  /** A danger has been flagged but not yet told. */
  predicate FlaggedInHand(hand: Option<Hand>, ju: JudgePhase) {
    (hand.Some? && hand.value.res.danger && hand.value.pc == TellDanger)
    || (ju.pc == TellJudgeDanger && ju.reply.Replied? && ju.reply.urgent)
  }

  /** The first usable time is noted exactly if some result counts for the judge. */
  predicate UsableOk(r: RequestRow, hand: Option<Hand>, included: set<Seat>) {
    r.tFirstUsableViewMs.Some? <==> included != {} || NotedInHand(hand)
  }

  /** A danger is flagged exactly if it has been told, or is about to be. */
  ghost predicate DangerOk(r: RequestRow, log: seq<Event>, hand: Option<Hand>, ju: JudgePhase) {
    r.dangerFlagged <==> DangerTold(log) || FlaggedInHand(hand, ju)
  }

  /** The judge's times and counts are there exactly from the step that writes them. */
  predicate TimesOk(r: RequestRow, views: map<Seat, ViewRow>, deadline: int, ju: JudgePhase) {
    (r.judgeStartedAt.Some? <==> Rank(ju.pc) > Rank(MarkRunning))
    && (r.judgeDeadlineAt.Some? <==> Rank(ju.pc) > Rank(MarkRunning))
    && (r.finishedAt.Some? <==> Rank(ju.pc) > Rank(WriteProgress))
    && (Rank(ju.pc) > Rank(WriteProgress) ==>
          r.viewsCompletedInDeadline == |InTimeSeats(views, deadline)|
          && r.judgeCompletedInDeadline.Some? && (r.judgeCompletedInDeadline.value ==> JudgeOk(ju.reply)))
  }

  ghost predicate Columns(s: Run) {
    UsableOk(s.rec.request, s.hand, s.co.included.Keys)
    && DangerOk(s.rec.request, s.rec.log, s.hand, s.ju)
    && TimesOk(s.rec.request, s.rec.views, s.viewsDeadline, s.ju)
  }

  lemma AfterColumns(s: Run, seats: seq<Seat>, t: Run)
    requires After(s, t) && HandOk(s.hand, Waits(s.chan), seats) && Columns(s)
    ensures Columns(t)
  {
    var h := s.hand.value;
    assert h.res.usable <==> h.res.terminal;
    if h.res.terminal && !h.late { assert h.res.seat in t.co.included.Keys; }
  }

  /** The coordinator's steps on the way, and those that trigger the judge. */
  lemma CoordMovesColumns(s: Run, l: CoordLabel)
    requires CountOk(s.co, s.chan) && Controlled(s) && Columns(s) && NextCoord(s, l).Some?
    requires l.Start? || l.TakeResult? || l.ViewsContextDone? || l.RunContextDone?
    ensures Columns(NextCoord(s, l).value)
  {
  }

  lemma CoordLeavesColumns(s: Run, l: CoordLabel)
    requires CountOk(s.co, s.chan) && Controlled(s) && Columns(s) && NextCoord(s, l).Some?
    requires l.TakeClosed? || l.LeaveLoop? || l.SeeDrained? || l.SeeJudged?
    ensures Columns(NextCoord(s, l).value)
  {
  }

  lemma CoordKeepsColumns(s: Run, seats: seq<Seat>, l: CoordLabel)
    requires CountOk(s.co, s.chan) && Controlled(s) && HandOk(s.hand, Waits(s.chan), seats) && Columns(s)
    requires NextCoord(s, l).Some?
    ensures Columns(NextCoord(s, l).value)
  {
    if l.AfterRecord? {
      AfterControl(s);
      AfterColumns(s, seats, NextCoord(s, l).value);
    } else if l.Start? || l.TakeResult? || l.ViewsContextDone? || l.RunContextDone? {
      CoordMovesColumns(s, l);
    } else {
      CoordLeavesColumns(s, l);
    }
  }

  lemma DangerSnoc(log: seq<Event>, e: Event)
    ensures DangerTold(log + [e]) <==> DangerTold(log) || IsDanger(e)
  {
    assert e in log + [e];
    assert forall x :: x in log ==> x in log + [e];
  }

  lemma RecordKeepsColumns(rec: CouncilRows.Record, h: Hand, included: set<Seat>, ju: JudgePhase, deadline: int,
                           now: int, ms: int)
    requires UsableOk(rec.request, Some(h), included) && DangerOk(rec.request, rec.log, Some(h), ju)
    requires TimesOk(rec.request, rec.views, deadline, ju)
    requires h.pc != Recorded && Rank(ju.pc) <= Rank(AwaitViews)
    ensures var rec', h' := RecordStep(rec, h.res, h.late, h.pc, now, ms), h.(pc := NextPc(h.pc));
      UsableOk(rec'.request, Some(h'), included) && DangerOk(rec'.request, rec'.log, Some(h'), ju)
      && TimesOk(rec'.request, rec'.views, deadline, ju)
  {
    DangerSnoc(rec.log, SeatDanger(h.res.seat));
    DangerSnoc(rec.log, OutcomeFor(h.res, h.late));
  }

  lemma JudgeKeepsUsable(rec: CouncilRows.Record, ju: JudgePhase, hand: Option<Hand>, included: set<Seat>,
                         order: seq<Seat>, drained: bool, seats: seq<Seat>, l: JudgeLabel)
    requires UsableOk(rec.request, hand, included) && NextPhase(ju, included, drained, seats, l).Some?
    ensures UsableOk(JudgeWrites(rec, ju, order, seats, l).request, hand, included)
  {
  }

  lemma JudgeKeepsDanger(rec: CouncilRows.Record, ju: JudgePhase, hand: Option<Hand>, included: set<Seat>,
                         order: seq<Seat>, drained: bool, seats: seq<Seat>, l: JudgeLabel)
    requires DangerOk(rec.request, rec.log, hand, ju) && NextPhase(ju, included, drained, seats, l).Some?
    requires Rank(ju.pc) > Rank(AwaitViews) ==> hand.None?
    ensures var rec' := JudgeWrites(rec, ju, order, seats, l);
      DangerOk(rec'.request, rec'.log, hand, NextPhase(ju, included, drained, seats, l).value)
  {
    DangerSnoc(rec.log, JudgeStarted(order));
    DangerSnoc(rec.log, JudgeDanger);
    DangerSnoc(rec.log, ResultEvent(seats, ju.missing, ju.reply));
    DangerSnoc(rec.log, Done(FinalStateFor(ju.missing, ju.reply)));
  }

  /** No judge step touches a column twice, or a view row. */
  lemma JudgeTimes(rec: CouncilRows.Record, ju: JudgePhase, order: seq<Seat>, seats: seq<Seat>, l: JudgeLabel)
    ensures var r, rec' := rec.request, JudgeWrites(rec, ju, order, seats, l);
      rec'.views == rec.views
      && (l.DoMark? ==> rec'.request.judgeStartedAt.Some? && rec'.request.judgeDeadlineAt.Some?)
      && (!l.DoMark? ==> rec'.request.judgeStartedAt == r.judgeStartedAt)
      && (!l.DoMark? ==> rec'.request.judgeDeadlineAt == r.judgeDeadlineAt)
      && (l.DoProgress? ==> rec'.request.finishedAt.Some? && rec'.request.judgeCompletedInDeadline == Some(l.inTime)
                            && rec'.request.viewsCompletedInDeadline == |InTimeSeats(rec.views, l.deadline)|)
      && (!l.DoProgress? ==> rec'.request.finishedAt == r.finishedAt
                             && rec'.request.judgeCompletedInDeadline == r.judgeCompletedInDeadline
                             && rec'.request.viewsCompletedInDeadline == r.viewsCompletedInDeadline)
  {
  }

  lemma PhaseTimes(ju: JudgePhase, included: set<Seat>, drained: bool, seats: seq<Seat>, l: JudgeLabel)
    requires NextPhase(ju, included, drained, seats, l).Some?
    ensures var ju' := NextPhase(ju, included, drained, seats, l).value;
      (Rank(ju'.pc) > Rank(MarkRunning) <==> l.DoMark? || Rank(ju.pc) > Rank(MarkRunning))
      && (Rank(ju'.pc) > Rank(WriteProgress) <==> l.DoProgress? || Rank(ju.pc) > Rank(WriteProgress))
      && (l.DoProgress? && l.inTime ==> JudgeOk(ju'.reply))
      && (Rank(ju.pc) > Rank(WriteProgress) ==> ju'.reply == ju.reply)
  {
  }

  lemma JudgeKeepsTimes(rec: CouncilRows.Record, ju: JudgePhase, included: set<Seat>, order: seq<Seat>, drained: bool,
                        seats: seq<Seat>, deadline: int, l: JudgeLabel)
    requires TimesOk(rec.request, rec.views, deadline, ju) && NextPhase(ju, included, drained, seats, l).Some?
    requires l.DoProgress? ==> l.deadline == deadline
    ensures var rec' := JudgeWrites(rec, ju, order, seats, l);
      TimesOk(rec'.request, rec'.views, deadline, NextPhase(ju, included, drained, seats, l).value)
  {
    JudgeTimes(rec, ju, order, seats, l);
    PhaseTimes(ju, included, drained, seats, l);
    TimesMove(rec.request, JudgeWrites(rec, ju, order, seats, l).request, rec.views, deadline, ju,
              NextPhase(ju, included, drained, seats, l).value, l);
  }

  lemma TimesMove(r: RequestRow, r': RequestRow, views: map<Seat, ViewRow>, deadline: int, ju: JudgePhase,
                  ju': JudgePhase, l: JudgeLabel)
    requires TimesOk(r, views, deadline, ju) && (l.DoProgress? ==> l.deadline == deadline)
    requires Rank(ju'.pc) > Rank(MarkRunning) <==> l.DoMark? || Rank(ju.pc) > Rank(MarkRunning)
    requires Rank(ju'.pc) > Rank(WriteProgress) <==> l.DoProgress? || Rank(ju.pc) > Rank(WriteProgress)
    requires (l.DoProgress? && l.inTime ==> JudgeOk(ju'.reply))
    requires (Rank(ju.pc) > Rank(WriteProgress) ==> ju'.reply == ju.reply)
    requires if l.DoMark? then r'.judgeStartedAt.Some? && r'.judgeDeadlineAt.Some?
             else r'.judgeStartedAt == r.judgeStartedAt && r'.judgeDeadlineAt == r.judgeDeadlineAt
    requires if l.DoProgress? then r'.finishedAt.Some? && r'.judgeCompletedInDeadline == Some(l.inTime)
                                   && r'.viewsCompletedInDeadline == |InTimeSeats(views, l.deadline)|
             else r'.finishedAt == r.finishedAt && r'.judgeCompletedInDeadline == r.judgeCompletedInDeadline
                  && r'.viewsCompletedInDeadline == r.viewsCompletedInDeadline
    ensures TimesOk(r', views, deadline, ju')
  {
  }

  lemma JudgeKeepsColumns(s: Run, seats: seq<Seat>, l: JudgeLabel)
    requires Columns(s) && NextJudge(s, seats, l).Some?
    requires Rank(s.ju.pc) > Rank(AwaitViews) ==> s.hand.None?
    ensures Columns(NextJudge(s, seats, l).value)
  {
    var included, drained := s.co.included.Keys, s.drain == DrainExited;
    JudgeKeepsUsable(s.rec, s.ju, s.hand, included, s.co.order, drained, seats, l);
    JudgeKeepsDanger(s.rec, s.ju, s.hand, included, s.co.order, drained, seats, l);
    JudgeKeepsTimes(s.rec, s.ju, included, s.co.order, drained, seats, s.viewsDeadline, l);
  }

  lemma DrainKeepsColumns(s: Run, l: DrainLabel)
    requires Controlled(s) && Columns(s) && NextDrain(s, l).Some?
    ensures Columns(NextDrain(s, l).value)
  {
  }

  lemma OtherKeepsColumns(s: Run, l: OtherLabel)
    requires Columns(s) && NextOther(s, l).Some?
    ensures Columns(NextOther(s, l).value)
  {
    if l.SupersedeTell? { DangerSnoc(s.rec.log, SupersededBy(l.id)); }
  }

  /** The part of the invariant these proofs use. */
  lemma Parts(s: Run, seats: seq<Seat>)
    requires Inv(s, seats)
    ensures CountOk(s.co, s.chan) && Controlled(s) && HandOk(s.hand, Waits(s.chan), seats)
  {
  }

  /** At its late steps the judge works on a row nobody else is recording into. */
  lemma JudgeIsAlone(s: Run)
    requires Controlled(s)
    ensures Rank(s.ju.pc) > Rank(AwaitViews) ==> s.hand.None?
  {
  }

  /** Every step keeps what the columns say. */
  lemma NextKeepsColumns(s: Run, seats: seq<Seat>, l: Label)
    requires CountOk(s.co, s.chan) && Controlled(s) && HandOk(s.hand, Waits(s.chan), seats)
    requires Columns(s) && Next(s, seats, l).Some?
    ensures Columns(Next(s, seats, l).value)
  {
    match l
    case Coord(c) => CoordKeepsColumns(s, seats, c);
    case View(v) =>
    case RecordMore(now, ms) =>
      HandMeansEarly(s.co, s.chan, s.hand, s.drain, s.ju.pc);
      RecordKeepsColumns(s.rec, s.hand.value, s.co.included.Keys, s.ju, s.viewsDeadline, now, ms);
    case Drain(d) => DrainKeepsColumns(s, d);
    case Judge(j) =>
      JudgeIsAlone(s);
      JudgeKeepsColumns(s, seats, j);
    case Other(o) => OtherKeepsColumns(s, o);
  }

  lemma InitColumns(seats: seq<Seat>)
    ensures Columns(Init(seats))
  {
  }

  lemma {:induction false} ExecKeepsColumns(seats: seq<Seat>, ls: seq<Label>, s: Run)
    requires Reaches(seats, ls, s)
    ensures Columns(s)
  {
    if ls == [] {
      InitColumns(seats);
    } else {
      var front, l := ls[..|ls| - 1], ls[|ls| - 1];
      var m := Exec(seats, front).value;
      ExecKeepsColumns(seats, front, m);
      ExecKeepsInv(seats, front);
      Parts(m, seats);
      NextKeepsColumns(m, seats, l);
    }
  }

  lemma DoneColumns(s: Run)
    requires Columns(s) && s.hand.None? && Rank(s.ju.pc) > Rank(TellDone) && Marked(s.rec.views) == s.co.included.Keys
    ensures var r := s.rec.request;
      (r.tFirstUsableViewMs.Some? <==> Marked(s.rec.views) != {})
      && (r.dangerFlagged <==> DangerTold(s.rec.log))
      && r.judgeStartedAt.Some? && r.judgeDeadlineAt.Some? && r.finishedAt.Some?
      && r.viewsCompletedInDeadline == |InTimeSeats(s.rec.views, s.viewsDeadline)|
      && (r.judgeCompletedInDeadline == Some(true) ==> JudgeOk(s.ju.reply))
  {
  }

  /** Only views marked for the judge are counted as in time. */
  lemma InTimeAreMarked(views: map<Seat, ViewRow>, seats: seq<Seat>, waits: set<Seat>, hand: Option<Hand>,
                        included: set<Seat>, deadline: int)
    requires RowsOk(views, seats, waits, hand, included)
    ensures InTimeSeats(views, deadline) <= Marked(views)
  {
    forall seat | seat in InTimeSeats(views, deadline) ensures seat in Marked(views) {
      assert RowFits(views[seat], seat, waits, hand, seat in included);
    }
  }

  /** When a run is done: the first usable time is there exactly if some view is
      included, the danger flag is up exactly if a danger event was published, the
      views counted in time are the included ones completed by the deadline, and a
      judge counted in time succeeded. */
  lemma ColumnsAtDone(seats: seq<Seat>, ls: seq<Label>, s: Run)
    requires Reaches(seats, ls, s) && IsDone(s)
    ensures var r := s.rec.request;
      (r.tFirstUsableViewMs.Some? <==> Marked(s.rec.views) != {})
      && (r.dangerFlagged <==> DangerTold(s.rec.log))
      && r.judgeStartedAt.Some? && r.judgeDeadlineAt.Some? && r.finishedAt.Some?
      && r.viewsCompletedInDeadline == |InTimeSeats(s.rec.views, s.viewsDeadline)|
      && (r.judgeCompletedInDeadline == Some(true) ==> JudgeOk(s.ju.reply))
    ensures InTimeSeats(s.rec.views, s.viewsDeadline) <= Marked(s.rec.views)
  {
    ExecKeepsInv(seats, ls);
    ExecKeepsColumns(seats, ls, s);
    DoneMeansStored(s, seats);
    RowsAgreeAtDone(s, seats);
    InTimeAreMarked(s.rec.views, seats, Waits(s.chan), s.hand, s.co.included.Keys, s.viewsDeadline);
    DoneColumns(s);
  }
}
